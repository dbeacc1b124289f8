/**
 Retention over whole runs: while the leader expects exactly its replicas and
 no replica holds two slots, nothing any replica still lacks is deleted, so a
 replica coming back is never told its history is gone.
 */
module Retention {
  import opened Wrappers
  import opened Acks
  import opened SegTable
  import opened Replication
  import opened Durability

  function Who(p: Peer, conns: seq<Conn>): nat {
    if p.conn < |conns| then conns[p.conn].who else 0
  }

  /** No replica holds two of the leader's slots. */
  ghost predicate Distinct(peers: seq<Option<Peer>>, conns: seq<Conn>) {
    forall i, j :: 0 <= i < j < |peers| && peers[i].Some? && peers[j].Some? ==>
      Who(peers[i].value, conns) != Who(peers[j].value, conns)
  }

  /** Every replica has flushed up to w. */
  ghost predicate AllHave(w: nat, fs: seq<Follower>) {
    forall f :: 0 <= f < |fs| ==> w <= fs[f].node.durable
  }

  /** The floor, and everything already deleted, is something every replica has flushed. */
  ghost predicate Retains(s: System) {
    && s.want == |s.followers|
    && AllHave(s.leader.floor, s.followers)
    && s.leader.bases != [] && 0 < s.leader.bases[0]
    && AllHave(s.leader.bases[0] - 1, s.followers)
  }

  /** Distinct live slots, one for each replica, leave no replica out. */
  lemma SlotForEach(peers: seq<Option<Peer>>, conns: seq<Conn>, n: nat, f: nat) returns (i: nat)
    requires |peers| == MAX_REPLICAS && Distinct(peers, conns) && f < n <= LiveCount(peers)
    requires forall i :: 0 <= i < |peers| && peers[i].Some? ==> Who(peers[i].value, conns) < n
    ensures i < |peers| && peers[i].Some? && Who(peers[i].value, conns) == f
  {
    LiveOfTwo(peers);
    i := if peers[0].Some? && Who(peers[0].value, conns) == f then 0 else 1;
  }

  lemma LiveOfTwo(peers: seq<Option<Peer>>)
    requires |peers| == MAX_REPLICAS
    ensures LiveCount(peers) == (if peers[0].Some? then 1 else 0) + (if peers[1].Some? then 1 else 0)
  {
    assert LiveCount(peers[..1][..0]) == 0;
    assert LiveCount(peers[..1]) == if peers[0].Some? then 1 else 0;
  }

  lemma FloorSafe(want: nat, floor: nat, peers: seq<Option<Peer>>, conns: seq<Conn>, fs: seq<Follower>, lead: Node)
    requires want == |fs| && AllHave(floor, fs) && |peers| == MAX_REPLICAS
    requires PeersOk(peers, conns, fs, lead) && Distinct(peers, conns)
    ensures AllHave(Floor(want, floor, peers), fs)
  {
    hide Flat, Lowest, LiveCount;
    if Floor(want, floor, peers) != floor {
      LowestIs(peers);
      forall f | 0 <= f < |fs|
        ensures Floor(want, floor, peers) <= fs[f].node.durable
      {
        forall i | 0 <= i < |peers| && peers[i].Some?
          ensures PeerOk(peers[i].value, conns, fs, lead) && Who(peers[i].value, conns) < |fs|
        {
        }
        var i := SlotForEach(peers, conns, want, f);
        assert PeerOk(peers[i].value, conns, fs, lead);
      }
    }
  }

  // ---- exactly when raising the floor is safe ----

  /** Some live slot is this replica's. */
  ghost predicate Holds(peers: seq<Option<Peer>>, conns: seq<Conn>, f: nat) {
    exists i :: 0 <= i < |peers| && peers[i].Some? && Who(peers[i].value, conns) == f
  }

  /** Every one of n replicas holds a slot. */
  ghost predicate EachHolds(peers: seq<Option<Peer>>, conns: seq<Conn>, n: nat) {
    forall f: nat :: f < n ==> Holds(peers, conns, f)
  }

  /** What each replica has flushed, as far as the slots and the floor tell. */
  ghost predicate Bears(marks: seq<nat>, floor: nat, peers: seq<Option<Peer>>, conns: seq<Conn>) {
    && (forall f :: 0 <= f < |marks| ==> floor <= marks[f])
    && forall i :: 0 <= i < |peers| && peers[i].Some? && Who(peers[i].value, conns) < |marks| ==>
         peers[i].value.durable <= marks[Who(peers[i].value, conns)]
  }

  /** Whatever the replicas may have flushed, each has flushed up to w. */
  ghost predicate Backed(w: nat, floor: nat, peers: seq<Option<Peer>>, conns: seq<Conn>, n: nat) {
    forall marks: seq<nat>, f ::
      |marks| == n && Bears(marks, floor, peers, conns) && 0 <= f < n ==> w <= marks[f]
  }

  /**
   With every expected slot live, the raised floor is something each replica is
   sure to have flushed if and only if each replica holds a slot, or the floor
   stays where it is. With as many replicas as slots, that is to say that the
   slots are distinct.
   */
  lemma FloorBackedIff(want: nat, floor: nat, peers: seq<Option<Peer>>, conns: seq<Conn>)
    requires |peers| == MAX_REPLICAS && LiveCount(peers) >= want
    requires forall i :: 0 <= i < |peers| && peers[i].Some? ==> Who(peers[i].value, conns) < want
    ensures Backed(Floor(want, floor, peers), floor, peers, conns, want)
      <==> EachHolds(peers, conns, want) || Floor(want, floor, peers) == floor
    ensures Distinct(peers, conns) ==> EachHolds(peers, conns, want)
    ensures want == MAX_REPLICAS ==> (Distinct(peers, conns) <==> EachHolds(peers, conns, want))
  {
    hide Floor, LiveCount, Backed, EachHolds;
    if EachHolds(peers, conns, want) || Floor(want, floor, peers) == floor {
      HeldBacked(want, floor, peers, conns);
    } else {
      NotBacked(want, floor, peers, conns);
    }
    DistinctHolds(want, peers, conns);
  }

  lemma HeldBacked(want: nat, floor: nat, peers: seq<Option<Peer>>, conns: seq<Conn>)
    requires EachHolds(peers, conns, want) || Floor(want, floor, peers) == floor
    ensures Backed(Floor(want, floor, peers), floor, peers, conns, want)
  {
    hide LiveCount;
    LowestIs(peers);
    forall marks: seq<nat>, f | |marks| == want && Bears(marks, floor, peers, conns) && 0 <= f < want
      ensures Floor(want, floor, peers) <= marks[f]
    {
      if Floor(want, floor, peers) != floor {
        assert Holds(peers, conns, f);
      }
    }
  }

  /** One replica at low, all others at high. */
  function AllBut(n: nat, f: nat, low: nat, high: nat): (m: seq<nat>)
    ensures |m| == n && forall g :: 0 <= g < n ==> m[g] == if g == f then low else high
  {
    seq(n, g => if g == f then low else high)
  }

  lemma NotBacked(want: nat, floor: nat, peers: seq<Option<Peer>>, conns: seq<Conn>)
    requires !EachHolds(peers, conns, want) && Floor(want, floor, peers) != floor
    ensures !Backed(Floor(want, floor, peers), floor, peers, conns, want)
  {
    hide LiveCount;
    var f: nat :| f < want && !Holds(peers, conns, f);
    BestIs(peers);
    var marks := AllBut(want, f, floor, Max(floor, Best(peers)));
    hide Best;
    assert Bears(marks, floor, peers, conns);
    assert marks[f] == floor < Floor(want, floor, peers);
  }

  lemma DistinctHolds(want: nat, peers: seq<Option<Peer>>, conns: seq<Conn>)
    requires |peers| == MAX_REPLICAS && LiveCount(peers) >= want
    requires forall i :: 0 <= i < |peers| && peers[i].Some? ==> Who(peers[i].value, conns) < want
    ensures Distinct(peers, conns) ==> EachHolds(peers, conns, want)
    ensures want == MAX_REPLICAS && EachHolds(peers, conns, want) ==> Distinct(peers, conns)
  {
    LiveOfTwo(peers);
    hide LiveCount;
    if Distinct(peers, conns) {
      forall f: nat | f < want
        ensures Holds(peers, conns, f)
      {
        var i := SlotForEach(peers, conns, want, f);
      }
    }
    if want == MAX_REPLICAS && EachHolds(peers, conns, want) {
      assert Holds(peers, conns, 0) && Holds(peers, conns, 1);
    }
  }

  /** What a step can do to the floor. */
  lemma FloorMoves(s: System, e: Event)
    requires Enabled(s, e)
    ensures var t := Apply(s, e);
      || t.leader.floor == s.leader.floor
      || (t.leader.floor == Floor(s.want, s.leader.floor, t.leader.peers))
      || t.leader.floor == 0
  {
    hide Floor, Live, Retained, Owe, Release, SlotOf, FreeSlot, EmitFrom, TakeItems;
  }

  lemma WantStays(s: System, e: Event)
    requires Enabled(s, e)
    ensures var t := Apply(s, e);
      t.want == s.want && |t.followers| == |s.followers|
  {
    hide Floor, Live, Retained, Owe, Release, SlotOf, FreeSlot, EmitFrom, TakeItems;
  }

  lemma FlushedStays(s: System, e: Event, f: nat)
    requires Enabled(s, e) && f < |s.followers| && s.followers[f].node.durable <= |s.followers[f].node.log|
    ensures f < |Apply(s, e).followers| && s.followers[f].node.durable <= Apply(s, e).followers[f].node.durable
  {
    hide Floor, Live, Retained, Owe, Release, SlotOf, FreeSlot, EmitFrom, TakeItems;
  }

  lemma BasesMove(s: System, e: Event)
    requires Inv(s) && Enabled(s, e)
    ensures var t := Apply(s, e);
      t.leader.bases != [] && (t.leader.bases[0] == s.leader.bases[0]
        || (e.LRetain? && t.leader.bases[0] <= KeepFrom(s)))
  {
    hide Floor, Live, Owe, Release, SlotOf, FreeSlot, EmitFrom, TakeItems, KeepFrom, Flat, Counts, Follows;
    if e.LRetain? {
      RetainedOk(s, e.fails);
    }
    hide Retained;
  }

  lemma StepRetains(s: System, e: Event)
    requires Inv(s) && Retains(s) && Enabled(s, e)
    requires Distinct(Apply(s, e).leader.peers, Apply(s, e).conns)
    ensures Retains(Apply(s, e))
  {
    StepOk(s, e);
    FloorMoves(s, e);
    WantStays(s, e);
    BasesMove(s, e);
    var t := Apply(s, e);
    forall f | 0 <= f < |s.followers|
      ensures s.followers[f].node.durable <= t.followers[f].node.durable
    {
      assert FollowerOk(s.followers[f], s.leader.node);
      FlushedStays(s, e, f);
    }
    hide Apply, Enabled, Floor, Flat, Counts, Follows, Distinct;
    assert AllHave(s.leader.floor, t.followers);
    FloorSafe(s.want, s.leader.floor, t.leader.peers, t.conns, t.followers, t.leader.node);
    if s.followers != [] && e.LRetain? {
      assert KeepFrom(s) <= s.leader.floor + 1;
    }
  }

  /** Every state the run passes through, its end included. */
  ghost predicate AlwaysDistinct(s: System, es: seq<Event>)
    requires RunsTo(s, es)
    decreases |es|
  {
    Distinct(s.leader.peers, s.conns) && (es != [] ==> AlwaysDistinct(Apply(s, es[0]), es[1..]))
  }

  lemma {:induction false} RunRetains(s: System, es: seq<Event>)
    requires Inv(s) && Retains(s) && RunsTo(s, es) && AlwaysDistinct(s, es)
    ensures Inv(EndOf(s, es)) && Retains(EndOf(s, es))
    decreases |es|
  {
    hide Inv, Retains, Enabled, Apply, Distinct;
    if es != [] {
      StepOk(s, es[0]);
      assert AlwaysDistinct(Apply(s, es[0]), es[1..]);
      StepRetains(s, es[0]);
      RunRetains(Apply(s, es[0]), es[1..]);
    }
  }

  lemma FreshRetains(s: System)
    requires Fresh(s) && s.want == |s.followers|
    ensures Inv(s) && Retains(s)
  {
    FreshOk(s);
  }

  /**
   In every run of a leader expecting exactly its replicas, across
   disconnections, redials and restarts of anyone, the first sequence the
   leader still holds is never past what any replica has flushed plus one.
   */
  lemma HistoryHeld(s: System, es: seq<Event>, f: nat)
    requires Fresh(s) && s.want == |s.followers| && RunsTo(s, es) && AlwaysDistinct(s, es)
    requires f < |s.followers|
    ensures var t := EndOf(s, es);
      f < |t.followers| && t.leader.bases != [] && t.leader.bases[0] <= t.followers[f].node.durable + 1
  {
    FreshRetains(s);
    RunRetains(s, es);
    FollowersStay(s, es);
  }

  lemma {:induction false} FollowersStay(s: System, es: seq<Event>)
    requires RunsTo(s, es)
    ensures |EndOf(s, es).followers| == |s.followers|
    decreases |es|
  {
    if es != [] {
      WantStays(s, es[0]);
      hide Apply, Enabled;
      FollowersStay(Apply(s, es[0]), es[1..]);
    }
  }

  /**
   A replica's opening frame on the connection it is using is never refused
   for history: it takes the free slot there is, from exactly where it asked.
   */
  lemma NeverNoHistory(s: System, es: seq<Event>, f: nat)
    requires Fresh(s) && s.want == |s.followers| && RunsTo(s, es) && AlwaysDistinct(s, es)
    requires var t := EndOf(s, es);
      && f < |t.followers| && t.followers[f].stream.Up?
      && var c := t.followers[f].stream.conn;
         && Enabled(t, LRecv(c)) && t.conns[c].up[0].Start?
         && FreeSlot(t.leader.peers) < |t.leader.peers|
    ensures var t := EndOf(s, es);
      var c, n := t.followers[f].stream.conn, |t.followers[f].node.log|;
      && t.leader.bases != [] && t.leader.bases[0] <= t.conns[c].up[0].first == n + 1 <= Next(t.leader.node)
      && Apply(t, LRecv(c)).leader.peers[FreeSlot(t.leader.peers)] == Some(Peer(c, n + 1, n))
  {
    hide Inv, Retains, Apply, Enabled, Fresh;
    FreshRetains(s);
    RunRetains(s, es);
    var t := EndOf(s, es);
    hide EndOf, RunsTo, AlwaysDistinct;
    AttachHeld(t, f);
  }

  lemma AttachHeld(t: System, f: nat)
    requires Inv(t) && Retains(t) && f < |t.followers| && t.followers[f].stream.Up?
    requires var c := t.followers[f].stream.conn;
      Enabled(t, LRecv(c)) && t.conns[c].up[0].Start? && FreeSlot(t.leader.peers) < |t.leader.peers|
    ensures var c, n := t.followers[f].stream.conn, |t.followers[f].node.log|;
      && t.leader.bases != [] && t.leader.bases[0] <= t.conns[c].up[0].first == n + 1 <= Next(t.leader.node)
      && Apply(t, LRecv(c)).leader.peers[FreeSlot(t.leader.peers)] == Some(Peer(c, n + 1, n))
  {
    hide Flat, Floor, NodeOk;
    var c := t.followers[f].stream.conn;
    assert FollowerOk(t.followers[f], t.leader.node);
    assert CurrentOk(f, t.followers[f], t.conns, t.leader.node);
    assert ConnOk(t.conns[c], t.followers);
    FreeSlotIs(t.leader.peers);
  }

  // ---- when the floor moves at all ----

  /**
   After a replica has attached or confirmed, with every expected one attached,
   some replica has confirmed no more than the floor: it is never behind all of
   them, and retention is held back only by the replica furthest behind.
   */
  lemma FloorFollows(s: System, c: nat)
    requires Enabled(s, LRecv(c)) && s.want > 0
    requires var t := Receive(s, c); t.leader.peers != s.leader.peers && t.conns[c].served
    ensures var t := Receive(s, c).leader;
      && s.leader.floor <= t.floor
      && (LiveCount(t.peers) >= s.want ==>
            exists i :: 0 <= i < |t.peers| && t.peers[i].Some? && t.peers[i].value.durable <= t.floor)
      && (LiveCount(t.peers) < s.want ==> t.floor == s.leader.floor)
  {
    hide Floor, LiveCount, FreeSlot, SlotOf, Release;
    var t := Receive(s, c).leader;
    FloorIs(s.want, s.leader.floor, t.peers);
    LiveCountIs(t.peers);
  }

  /** After a restart nothing is let go until the replicas have raised the floor again. */
  lemma NothingAfterRestart(s: System, kept: nat, extra: seq<Item>, fails: nat)
    requires kept <= |s.leader.node.log| && s.want > 0 && s.leader.bases != [] && 0 < s.leader.bases[0]
    ensures var t := Replication.Restarted(s, kept, extra);
      t.leader.bases != [] && Retained(t, fails) == s.leader.bases
  {}

  /** A connection that is dropped gives up its slot, and nobody else's. */
  lemma ReleaseFrees(peers: seq<Option<Peer>>, c: nat)
    requires forall i, j :: 0 <= i < j < |peers| && peers[i].Some? && peers[j].Some? ==>
      peers[i].value.conn != peers[j].value.conn
    ensures var p := Release(peers, c);
      && SlotOf(p, c) == |p|
      && (forall i :: 0 <= i < |peers| && (peers[i].None? || peers[i].value.conn != c) ==> p[i] == peers[i])
      && (forall i :: 0 <= i < |peers| && peers[i].Some? && peers[i].value.conn == c ==> p[i].None?)
  {
    hide SlotOf;
    var p := Release(peers, c);
    var i, k := SlotOf(peers, c), SlotOf(p, c);
  }
}
