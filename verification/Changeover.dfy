/**
 Promises across changes of leader. A slot holds a replica to a number of
 records; that number is a promise about the leader's records only if the
 replica's log is a prefix of them. When it is, over runs in which leaders fall,
 come back as replicas and are replaced, and a run in which it is not.
 */
module Changeover {
  import opened Wrappers
  import opened Dedup
  import opened Following
  import opened Diverged

  /** Both nodes have flushed the same first c records. */
  ghost predicate Vouched(nodes: seq<Server>, n: nat, m: nat, c: nat) {
    && n < |nodes| && m < |nodes|
    && c <= |Flushed(nodes[n])| && c <= |Flushed(nodes[m])|
    && Flushed(nodes[n])[..c] == Flushed(nodes[m])[..c]
  }

  /** Whatever a node follows has flushed all that the node has, and in the same order. */
  ghost predicate Behind(nodes: seq<Server>, n: nat)
    requires n < |nodes|
  {
    nodes[n].source.Some? ==>
      && nodes[n].follower && nodes[n].source.value < |nodes| && nodes[n].source.value != n
      && nodes[n].log <= Flushed(nodes[nodes[n].source.value])
  }

  ghost predicate AllBehind(nodes: seq<Server>) {
    forall n :: 0 <= n < |nodes| ==> Behind(nodes, n)
  }

  /** A node attaches to a log its own is a prefix of, and takes what its leader has logged there. */
  ghost predicate Joining(nodes: seq<Server>, e: (nat, Event))
    requires Enabled(nodes, e.0, e.1)
  {
    (e.1.Attach? ==> nodes[e.0].log <= Flushed(nodes[e.1.to])) && TakesOwn(nodes, e)
  }

  /** The moving node's own link. */
  lemma OwnBehind(nodes: seq<Server>, e: (nat, Event))
    requires AllOk(nodes) && AllBehind(nodes) && Enabled(nodes, e.0, e.1) && Joining(nodes, e)
    ensures e.0 < |nodes| && Behind(After(nodes, e), e.0)
  {
    hide Dedup.Ok;
    var n := e.0;
    assert Behind(nodes, n);
    if !e.1.Take? && !e.1.Attach? {
      SourceKept(nodes, n, e.1);
    }
    hide Enabled;
  }

  lemma BehindKept(nodes: seq<Server>, e: (nat, Event))
    requires AllOk(nodes) && AllBehind(nodes) && Enabled(nodes, e.0, e.1) && Joining(nodes, e)
    ensures AllOk(After(nodes, e)) && AllBehind(After(nodes, e))
  {
    hide Dedup.Ok, Enabled, Step, Flushed;
    var n, t := e.0, After(nodes, e);
    EnabledIndex(nodes, n, e.1);
    assert Dedup.Ok(nodes[n]);
    AfterOk(nodes, e);
    FlushedGrows(nodes, n, e.1);
    forall k | 0 <= k < |t|
      ensures Behind(t, k)
    {
      assert Behind(nodes, k);
      if k == n { OwnBehind(nodes, e); }
    }
  }

  /** Any other attachment, or any other record taken, breaks it at once. */
  lemma BehindLost(nodes: seq<Server>, e: (nat, Event))
    requires AllBehind(nodes) && Enabled(nodes, e.0, e.1) && !Joining(nodes, e)
    ensures !AllBehind(After(nodes, e))
  {
    assert Behind(nodes, e.0);
    assert e.0 < |nodes| && !Behind(After(nodes, e), e.0);
  }

  // ---- over whole runs ----

  ghost predicate JoiningRun(nodes: seq<Server>, es: seq<(nat, Event)>)
    requires RunsTo(nodes, es)
    decreases |es|
  {
    es == [] || (Joining(nodes, es[0]) && JoiningRun(After(nodes, es[0]), es[1..]))
  }

  /** At every moment of the run. */
  ghost predicate BehindThroughout(nodes: seq<Server>, es: seq<(nat, Event)>)
    requires RunsTo(nodes, es)
    decreases |es|
  {
    AllBehind(nodes) && (es == [] || BehindThroughout(After(nodes, es[0]), es[1..]))
  }

  /**
   Replicas' logs are prefixes of what their leaders have flushed at every
   moment of a run if and only if they are at every attachment and each record
   taken is the one its leader has logged there. Nothing is asked of its
   restarts.
   */
  lemma {:induction false} BehindIff(nodes: seq<Server>, es: seq<(nat, Event)>)
    requires AllOk(nodes) && AllBehind(nodes) && RunsTo(nodes, es)
    ensures BehindThroughout(nodes, es) <==> JoiningRun(nodes, es)
    ensures JoiningRun(nodes, es) ==> AllOk(EndOf(nodes, es)) && AllBehind(EndOf(nodes, es))
    decreases |es|
  {
    hide AllOk, AllBehind, Enabled, Step, Joining;
    if es != [] {
      if Joining(nodes, es[0]) {
        BehindKept(nodes, es[0]);
        BehindIff(After(nodes, es[0]), es[1..]);
      } else {
        BehindLost(nodes, es[0]);
        ThenNot(After(nodes, es[0]), es[1..]);
      }
    }
  }

  lemma ThenNot(nodes: seq<Server>, es: seq<(nat, Event)>)
    requires RunsTo(nodes, es) && !AllBehind(nodes)
    ensures !BehindThroughout(nodes, es)
  {}

  /** What two nodes have both flushed they keep, through any run at all. */
  lemma {:induction false} VouchedForever(nodes: seq<Server>, es: seq<(nat, Event)>, n: nat, m: nat, c: nat)
    requires AllOk(nodes) && RunsTo(nodes, es) && Vouched(nodes, n, m, c)
    ensures Vouched(EndOf(nodes, es), n, m, c)
    ensures Flushed(EndOf(nodes, es)[m])[..c] == Flushed(nodes[m])[..c]
    decreases |es|
  {
    hide AllOk, Enabled, Step, Flushed;
    if es != [] {
      var t := After(nodes, es[0]);
      EnabledIndex(nodes, es[0].0, es[0].1);
      assert Dedup.Ok(nodes[es[0].0]) by { OkAt(nodes, es[0].0); }
      FlushedGrows(nodes, es[0].0, es[0].1);
      AfterOk(nodes, es[0]);
      assert Flushed(nodes[n]) <= Flushed(t[n]) && Flushed(nodes[m]) <= Flushed(t[m]);
      PartOf(Flushed(nodes[n]), Flushed(t[n]), c);
      PartOf(Flushed(nodes[m]), Flushed(t[m]), c);
      VouchedForever(t, es[1..], n, m, c);
    }
  }

  lemma OkAt(nodes: seq<Server>, n: nat)
    requires AllOk(nodes) && n < |nodes|
    ensures Dedup.Ok(nodes[n])
  {}

  lemma PartOf<T>(a: seq<T>, b: seq<T>, c: nat)
    requires a <= b && c <= |a|
    ensures a[..c] == b[..c]
  {}

  /**
   When a start names a number of records and takes a slot with it: the replica
   and its new leader have the same records to that number if and only if the
   replica's flushed log is a prefix of the leader's.
   */
  lemma MarkVouchedIff(nodes: seq<Server>, n: nat, m: nat)
    requires AllOk(nodes) && Enabled(nodes, n, Attach(m)) && nodes[n].durable == |nodes[n].log|
    ensures Vouched(After(nodes, (n, Attach(m))), n, m, |nodes[n].log|) <==> nodes[n].log <= Flushed(nodes[m])
  {
    hide Marked, ConnOk;
    assert Dedup.Ok(nodes[n]) && Dedup.Ok(nodes[m]);
    assert nodes[n].log[..nodes[n].durable] == nodes[n].log;
  }

  /**
   A promise of c records made while a replica is attached, in any run whose
   attachments are by prefix and whose streams hand over the leaders' own
   records: replica and leader have the same c records
   flushed, and keep them through whatever comes after, new leaders included.
   */
  lemma PromisedAcross(nodes: seq<Server>, es: seq<(nat, Event)>, more: seq<(nat, Event)>, n: nat, m: nat, c: nat)
    requires Fresh(nodes) && RunsTo(nodes, es) && JoiningRun(nodes, es)
    requires n < |EndOf(nodes, es)| && EndOf(nodes, es)[n].source == Some(m) && c <= EndOf(nodes, es)[n].durable
    requires RunsTo(EndOf(nodes, es), more)
    ensures Vouched(EndOf(nodes, es), n, m, c)
    ensures Vouched(EndOf(EndOf(nodes, es), more), n, m, c)
    ensures Flushed(EndOf(EndOf(nodes, es), more)[m])[..c] == Flushed(EndOf(nodes, es)[m])[..c]
  {
    FreshOk(nodes);
    NobodyAttached(nodes);
    BehindIff(nodes, es);
    hide EndOf, RunsTo, JoiningRun, Marked, ConnOk;
    var t := EndOf(nodes, es);
    assert Behind(t, n) && Dedup.Ok(t[n]);
    VouchedForever(t, more, n, m, c);
  }

  lemma NobodyAttached(nodes: seq<Server>)
    requires Fresh(nodes)
    ensures AllBehind(nodes)
  {}

  /**
   Without the prefix it fails. A former leader with two flushed records, the
   second its own, follows the node that replaced it, whose second flushed
   record is another's. The slot holds it to two records; it has not got the
   second, and from then on that record counts as copied.
   */
  lemma NotVouched() returns (run: seq<(nat, Event)>)
    ensures Reaches(Start(), run, Attached()) && !JoiningRun(Start(), run)
    ensures var t := Attached();
      && |t| == 2 && t[0].source == Some(1) && t[0].durable == |t[0].log| == 2 <= t[1].durable
      && t[1].log[1] == OTHER && OTHER !in t[0].log && !Vouched(t, 0, 1, 2)
  {
    run := ToFollowing();
    hide Start, Attached, RunsTo, EndOf, JoiningRun;
    StartFresh();
    NotPrefix(Attached());
    AtEnd(Start(), run, Attached(), 0);
  }

  lemma NotPrefix(t: seq<Server>)
    requires t == Attached()
    ensures |t| == 2 && t[0].source == Some(1) && t[0].durable == |t[0].log| == 2 <= t[1].durable
    ensures t[1].log[1] == OTHER && OTHER !in t[0].log && !Vouched(t, 0, 1, 2) && !Behind(t, 0)
  {
    assert Flushed(t[0]) == [FIRST, SECOND] && Flushed(t[1])[..2] == [FIRST, OTHER];
  }

  lemma AtEnd(a: seq<Server>, run: seq<(nat, Event)>, t: seq<Server>, n: nat)
    requires Fresh(a) && RunsTo(a, run) && EndOf(a, run) == t && n < |t| && !Behind(t, n)
    ensures !JoiningRun(a, run)
  {
    FreshOk(a);
    NobodyAttached(a);
    hide JoiningRun, Behind, Fresh, AllOk, RunsTo, EndOf;
    BehindIff(a, run);
  }
}
