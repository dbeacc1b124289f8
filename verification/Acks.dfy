/**
 What the leader owes its clients and what its replicas have confirmed: the
 acknowledgement slots of a connection, the replica slots, and the retention
 floor. Each routine of the loop is proved against a function of its inputs.
 */
module Acks {
  import opened Wrappers

  const MAX_REPLICAS := 2
  const REPL_DEADLINE_TICKS := 10

  /** The header flags that matter to an acknowledgement. */
  datatype Flags = Flags(ackReq: bool, sync: bool, replicated: bool, degraded: bool)

  const NO_FLAGS := Flags(false, false, false, false)

  function Union(a: Flags, b: Flags): Flags {
    Flags(a.ackReq || b.ackReq, a.sync || b.sync, a.replicated || b.replicated, a.degraded || b.degraded)
  }

  // ---- acknowledgement slots ----

  datatype Slot = Slot(due: bool, clientSeq: nat, walSeq: nat, deadline: nat, flags: Flags, degradable: bool)

  const CLEAR := Slot(false, 0, 0, 0, NO_FLAGS, false)

  function Max(a: nat, b: nat): nat {
    if a < b then b else a
  }

  /** The highest sequence waiting, the first deadline, every flag asked for. */
  function Staged(a: Slot, flags: Flags, degradable: bool, clientSeq: nat, walSeq: nat, deadline: nat): Slot {
    Slot(true, Max(a.clientSeq, clientSeq), Max(a.walSeq, walSeq), if a.due then a.deadline else deadline,
         Union(a.flags, flags), a.degradable || degradable)
  }

  datatype Client = Client(local: Slot, repl: Slot)

  /** What a write asked for. */
  datatype Ask = Ask(flags: Flags, degradable: bool)

  function Owe(c: Client, live: bool, tick: nat, ask: Ask, clientSeq: nat, walSeq: nat): Client {
    var asked := ask.flags.(degraded := false);
    if !asked.replicated then c.(local := Staged(c.local, asked, false, clientSeq, walSeq, 0))
    else if !live then c.(local := Staged(c.local, asked.(degraded := true), true, clientSeq, walSeq, 0))
    else c.(repl := Staged(c.repl, asked, ask.degradable, clientSeq, walSeq, tick + REPL_DEADLINE_TICKS))
  }

  datatype Reply = Ack(flags: Flags, walSeq: nat, clientSeq: nat) | NoReplicas(clientSeq: nat)

  function EmitLocal(c: Client): seq<Reply> {
    if c.local.due then [Ack(c.local.flags, c.local.walSeq, c.local.clientSeq)] else []
  }

  /** Whether the replicated slot is answered this pass, and with what. */
  function EmitRepl(c: Client, best: nat, live: bool, durable: nat, tick: nat): Option<Reply> {
    var a := c.repl;
    if !a.due then None
    else if best >= a.walSeq && durable >= a.walSeq then Some(Ack(a.flags, a.walSeq, a.clientSeq))
    else if live && tick < a.deadline then None
    else if a.degradable then Some(Ack(a.flags.(degraded := true), a.walSeq, a.clientSeq))
    else Some(NoReplicas(a.clientSeq))
  }

  function Emitted(c: Client, best: nat, live: bool, durable: nat, tick: nat): (Client, seq<Reply>) {
    var r := EmitRepl(c, best, live, durable, tick);
    (Client(if c.local.due then CLEAR else c.local, if r.Some? then CLEAR else c.repl),
     EmitLocal(c) + if r.Some? then [r.value] else [])
  }

  // ---- replica slots ----

  datatype Peer = Peer(conn: nat, cursor: nat, durable: nat)

  function Live(peers: seq<Option<Peer>>): bool {
    peers != [] && (peers[|peers| - 1].Some? || Live(peers[..|peers| - 1]))
  }

  /** The highest sequence any one live replica has confirmed. */
  function Best(peers: seq<Option<Peer>>): nat {
    if peers == [] then 0
    else
      var best, p := Best(peers[..|peers| - 1]), peers[|peers| - 1];
      if p.Some? then Max(best, p.value.durable) else best
  }

  function LiveCount(peers: seq<Option<Peer>>): nat {
    if peers == [] then 0 else LiveCount(peers[..|peers| - 1]) + if peers[|peers| - 1].Some? then 1 else 0
  }

  /** The lowest sequence a live replica has confirmed. */
  function Lowest(peers: seq<Option<Peer>>): Option<nat> {
    if peers == [] then None
    else
      var low, p := Lowest(peers[..|peers| - 1]), peers[|peers| - 1];
      if p.None? then low
      else if low.None? || p.value.durable < low.value then Some(p.value.durable) else low
  }

  /** The floor rises to what every expected replica has confirmed, and only rises. */
  function Floor(want: nat, floor: nat, peers: seq<Option<Peer>>): nat {
    if want == 0 || LiveCount(peers) < want || Lowest(peers).None? then floor
    else Max(floor, Lowest(peers).value)
  }

  lemma {:induction false} BestIs(peers: seq<Option<Peer>>)
    ensures forall i :: 0 <= i < |peers| && peers[i].Some? ==> peers[i].value.durable <= Best(peers)
    ensures Best(peers) > 0 ==> exists i :: 0 <= i < |peers| && peers[i].Some? && peers[i].value.durable == Best(peers)
    ensures Live(peers) <==> exists i :: 0 <= i < |peers| && peers[i].Some?
  {
    if peers != [] {
      var n := |peers| - 1;
      BestIs(peers[..n]);
      assert forall i :: 0 <= i < n ==> peers[..n][i] == peers[i];
      if Best(peers) > 0 && Best(peers) == Best(peers[..n]) {
        var i :| 0 <= i < n && peers[..n][i].Some? && peers[..n][i].value.durable == Best(peers);
        assert peers[i].Some?;
      }
    }
  }

  lemma {:induction false} LiveCountIs(peers: seq<Option<Peer>>)
    ensures LiveCount(peers) == |set i | 0 <= i < |peers| && peers[i].Some?|
  {
    if peers != [] {
      var n := |peers| - 1;
      var before := set i | 0 <= i < |peers[..n]| && peers[..n][i].Some?;
      var all := set i | 0 <= i < |peers| && peers[i].Some?;
      LiveCountIs(peers[..n]);
      assert forall i :: 0 <= i < n ==> peers[..n][i] == peers[i];
      assert n !in before && all == before + if peers[n].Some? then {n} else {};
    }
  }

  /**
   The floor stays, unless so many replicas are expected and so many are live;
   then it is the lowest of their marks, if that is above it.
   */
  lemma FloorIs(want: nat, floor: nat, peers: seq<Option<Peer>>)
    ensures var f, live := Floor(want, floor, peers), set i | 0 <= i < |peers| && peers[i].Some?;
      if want == 0 || |live| < want then f == floor
      else
        && floor <= f && (f == floor || forall i :: i in live ==> f <= peers[i].value.durable)
        && exists i :: i in live && peers[i].value.durable <= f
  {
    LowestIs(peers);
    LiveCountIs(peers);
    BestIs(peers);
    hide Lowest, LiveCount, Live, Best;
    var live := set i | 0 <= i < |peers| && peers[i].Some?;
    if want > 0 && |live| >= want {
      var i :| i in live;
      assert Lowest(peers).Some?;
      var k :| 0 <= k < |peers| && peers[k].Some? && peers[k].value.durable == Lowest(peers).value;
      assert k in live;
    }
  }

  lemma {:induction false} LowestIs(peers: seq<Option<Peer>>)
    ensures Lowest(peers).Some? <==> Live(peers)
    ensures forall i :: 0 <= i < |peers| && peers[i].Some? ==>
      Lowest(peers).Some? && Lowest(peers).value <= peers[i].value.durable
    ensures Lowest(peers).Some? ==>
      exists i :: 0 <= i < |peers| && peers[i].Some? && peers[i].value.durable == Lowest(peers).value
  {
    if peers != [] {
      var n := |peers| - 1;
      LowestIs(peers[..n]);
      assert forall i :: 0 <= i < n ==> peers[..n][i] == peers[i];
      if peers[n].None? || Lowest(peers) == Lowest(peers[..n]) {
        if Lowest(peers).Some? {
          var i :| 0 <= i < n && peers[..n][i].Some? && peers[..n][i].value.durable == Lowest(peers).value;
          assert peers[i].Some?;
        }
      }
    }
  }

  /** An acknowledgement promising a second copy says so only once a live
      replica has confirmed it and this node has flushed it. */
  lemma EmittedIsConfirmed(c: Client, peers: seq<Option<Peer>>, durable: nat, tick: nat, r: Reply)
    requires c.local.flags.replicated ==> c.local.flags.degraded
    requires r in Emitted(c, Best(peers), Live(peers), durable, tick).1
    requires r.Ack? && r.flags.replicated && !r.flags.degraded
    ensures r.walSeq <= durable
    ensures r.walSeq == 0 || exists i :: 0 <= i < |peers| && peers[i].Some? && r.walSeq <= peers[i].value.durable
  {
    hide Best, Live;
    EmittedWhich(c, Best(peers), Live(peers), durable, tick, r);
    BestIs(peers);
  }

  lemma EmittedWhich(c: Client, best: nat, live: bool, durable: nat, tick: nat, r: Reply)
    requires c.local.flags.replicated ==> c.local.flags.degraded
    requires r in Emitted(c, best, live, durable, tick).1
    requires r.Ack? && r.flags.replicated && !r.flags.degraded
    ensures r.walSeq <= durable && r.walSeq <= best
  {
    var e := EmitRepl(c, best, live, durable, tick);
    assert EmittedParts(c, best, live, durable, tick);
  }

  ghost predicate EmittedParts(c: Client, best: nat, live: bool, durable: nat, tick: nat) {
    var e := EmitRepl(c, best, live, durable, tick);
    forall r :: r in Emitted(c, best, live, durable, tick).1 ==> r in EmitLocal(c) || e == Some(r)
  }

  /** Staging never lets a local acknowledgement claim a copy it does not have. */
  lemma OweKeeps(c: Client, live: bool, tick: nat, ask: Ask, clientSeq: nat, walSeq: nat)
    requires c.local.flags.replicated ==> c.local.flags.degraded
    ensures var d := Owe(c, live, tick, ask, clientSeq, walSeq); d.local.flags.replicated ==> d.local.flags.degraded
  {}

  // ---- the loop's own fields and routines ----

  class Replicas {
    const live: array<bool>
    const durable: array<nat>
    const cursor: array<nat>
    const conn: array<nat>
    var want: nat
    var floor: nat

    ghost predicate Valid() {
      && live.Length == durable.Length == cursor.Length == conn.Length == MAX_REPLICAS
      && durable != cursor && durable != conn && cursor != conn
    }

    ghost function Peers(): (s: seq<Option<Peer>>)
      requires Valid()
      reads live, durable, cursor, conn
      ensures |s| == MAX_REPLICAS
    {
      seq(MAX_REPLICAS, i requires 0 <= i < MAX_REPLICAS && Valid() reads live, durable, cursor, conn =>
        if live[i] then Some(Peer(conn[i], cursor[i], durable[i])) else None)
    }

    constructor (want: nat)
      ensures Valid() && Peers() == [None, None] && this.want == want && floor == 0
      ensures fresh(live) && fresh(durable) && fresh(cursor) && fresh(conn)
    {
      live := new bool[MAX_REPLICAS](_ => false);
      durable := new nat[MAX_REPLICAS](_ => 0);
      cursor := new nat[MAX_REPLICAS](_ => 0);
      conn := new nat[MAX_REPLICAS](_ => 0);
      this.want, floor := want, 0;
    }

    method ReplLive() returns (b: bool)
      requires Valid()
      ensures b == Live(Peers())
    {
      var i := 0;
      ghost var p := Peers();
      while i < MAX_REPLICAS
        invariant 0 <= i <= MAX_REPLICAS && !Live(p[..i])
      {
        assert p[..i + 1][..i] == p[..i];
        if live[i] {
          LivePrefix(p, i + 1);
          return true;
        }
        i := i + 1;
      }
      assert p[..i] == p;
      b := false;
    }

    method ReplBest() returns (best: nat)
      requires Valid()
      ensures best == Best(Peers())
    {
      best := 0;
      var i := 0;
      ghost var p := Peers();
      while i < MAX_REPLICAS
        invariant 0 <= i <= MAX_REPLICAS && best == Best(p[..i])
      {
        assert p[..i + 1][..i] == p[..i];
        if live[i] && durable[i] > best {
          best := durable[i];
        }
        i := i + 1;
      }
      assert p[..i] == p;
    }

    method RetainFloorUpdate()
      requires Valid()
      modifies this`floor
      ensures floor == Floor(want, old(floor), Peers())
    {
      if want == 0 {
        return;
      }
      var lowest, n, i := 0, 0, 0;
      ghost var p := Peers();
      while i < MAX_REPLICAS
        invariant 0 <= i <= MAX_REPLICAS && n == LiveCount(p[..i])
        invariant n > 0 <==> Lowest(p[..i]).Some?
        invariant n > 0 ==> Lowest(p[..i]) == Some(lowest)
      {
        assert p[..i + 1][..i] == p[..i];
        if live[i] {
          if n == 0 || durable[i] < lowest {
            lowest := durable[i];
          }
          n := n + 1;
        }
        i := i + 1;
      }
      assert p[..i] == p;
      if n < want {
        return;
      }
      if lowest > floor {
        floor := lowest;
      }
    }
  }

  lemma {:induction false} LivePrefix(p: seq<Option<Peer>>, n: nat)
    requires n <= |p| && Live(p[..n])
    ensures Live(p)
    decreases |p| - n
  {
    if n < |p| {
      assert p[..n + 1][..n] == p[..n];
      LivePrefix(p, n + 1);
    } else {
      assert p[..n] == p;
    }
  }

  /** The acknowledgements of every connection slot. */
  class Conns {
    const clients: array<Client>

    constructor (n: nat)
      ensures clients.Length == n && fresh(clients)
      ensures forall i :: 0 <= i < n ==> clients[i] == Client(CLEAR, CLEAR)
    {
      clients := new Client[n](_ => Client(CLEAR, CLEAR));
    }

    method Stage(i: nat, replicated: bool, flags: Flags, degradable: bool, clientSeq: nat, walSeq: nat, deadline: nat)
      requires i < clients.Length
      modifies clients
      ensures clients[..] == old(clients[..])[i := var c := old(clients[i]);
        if replicated then c.(repl := Staged(c.repl, flags, degradable, clientSeq, walSeq, deadline))
        else c.(local := Staged(c.local, flags, degradable, clientSeq, walSeq, deadline))]
    {
      var c := clients[i];
      var a := if replicated then c.repl else c.local;
      if !a.due {
        a := a.(due := true, deadline := deadline);
      }
      a := a.(flags := Union(a.flags, flags));
      if degradable {
        a := a.(degradable := true);
      }
      if clientSeq > a.clientSeq {
        a := a.(clientSeq := clientSeq);
      }
      if walSeq > a.walSeq {
        a := a.(walSeq := walSeq);
      }
      clients[i] := if replicated then c.(repl := a) else c.(local := a);
    }

    /** Route what connection i is owed to the slot that can satisfy it. */
    method AckWrite(i: nat, replicas: Replicas, tick: nat, ask: Ask, clientSeq: nat, walSeq: nat)
      requires i < clients.Length && replicas.Valid()
      modifies clients
      ensures clients[..] == old(clients[..])[i :=
        Owe(old(clients[i]), old(Live(replicas.Peers())), tick, ask, clientSeq, walSeq)]
    {
      var asked := ask.flags.(degraded := false);
      var live := replicas.ReplLive();
      if !asked.replicated {
        Stage(i, false, asked, false, clientSeq, walSeq, 0);
      } else if !live {
        Stage(i, false, asked.(degraded := true), true, clientSeq, walSeq, 0);
      } else {
        Stage(i, true, asked, ask.degradable, clientSeq, walSeq, tick + REPL_DEADLINE_TICKS);
      }
    }

    /** What this pass has made true, told to one client. */
    method EmitOne(i: nat, best: nat, live: bool, durable: nat, tick: nat) returns (out: seq<Reply>)
      requires i < clients.Length
      modifies clients
      ensures clients[..] == old(clients[..])[i := Emitted(old(clients[i]), best, live, durable, tick).0]
      ensures out == Emitted(old(clients[i]), best, live, durable, tick).1
    {
      var c := clients[i];
      out := [];
      if c.local.due {
        out := [Ack(c.local.flags, c.local.walSeq, c.local.clientSeq)];
        clients[i] := clients[i].(local := CLEAR);
      }
      assert out == EmitLocal(c) && out + [] == out;
      if !c.repl.due {
        return;
      }
      if best >= c.repl.walSeq && durable >= c.repl.walSeq {
        out := out + [Ack(c.repl.flags, c.repl.walSeq, c.repl.clientSeq)];
        clients[i] := clients[i].(repl := CLEAR);
        return;
      }
      if live && tick < c.repl.deadline {
        return;
      }
      if c.repl.degradable {
        out := out + [Ack(c.repl.flags.(degraded := true), c.repl.walSeq, c.repl.clientSeq)];
      } else {
        out := out + [NoReplicas(c.repl.clientSeq)];
      }
      clients[i] := clients[i].(repl := CLEAR);
    }

    /** Every connection in turn, against one reading of the replicas. */
    method EmitAll(replicas: Replicas, durable: nat, tick: nat) returns (out: seq<seq<Reply>>)
      requires replicas.Valid()
      modifies clients
      ensures |out| == clients.Length
      ensures var p := old(replicas.Peers());
        forall i :: 0 <= i < clients.Length ==>
          (clients[i], out[i]) == Emitted(old(clients[i]), Best(p), Live(p), durable, tick)
    {
      hide Best, Live, Emitted;
      var best := replicas.ReplBest();
      var live := replicas.ReplLive();
      out := [];
      var n := 0;
      while n < clients.Length
        invariant n <= clients.Length && |out| == n
        invariant forall i :: 0 <= i < n ==>
          (clients[i], out[i]) == Emitted(old(clients[i]), best, live, durable, tick)
        invariant forall i :: n <= i < clients.Length ==> clients[i] == old(clients[i])
      {
        ghost var before := clients[..];
        var replies := EmitOne(n, best, live, durable, tick);
        assert clients[..] == before[n := Emitted(before[n], best, live, durable, tick).0];
        assert forall i :: 0 <= i < clients.Length ==> clients[i] == clients[..][i];
        out := out + [replies];
        n := n + 1;
      }
    }
  }
}
