/**
 At-most-once storage: which logs a replica may follow without ever storing a
 write twice, and that every run in which replicas attach only to such logs
 stores each write once.
 */
module Following {
  import opened Wrappers
  import opened Sessions
  import opened SessionLog
  import opened Dedup

  /** Each session's sequences start above 0 and strictly increase. */
  ghost predicate Sound(log: seq<Sent>) {
    Increasing(log) && forall i :: 0 <= i < |log| ==> log[i].clientSeq > 0
  }

  // ---- following one log from the end of another ----

  /** What a replica holding L comes to hold when it takes M from where L ends. */
  function Followed(L: seq<Sent>, M: seq<Sent>): seq<Sent> {
    if |L| <= |M| then L + M[|L|..] else L
  }

  /** Every record still to be taken is past what its session has here. */
  ghost predicate Joins(L: seq<Sent>, M: seq<Sent>) {
    forall i :: |L| <= i < |M| ==> M[i].clientSeq > Highest(L, M[i].session)
  }

  /** No session has got further here than there. */
  ghost predicate NotAhead(L: seq<Sent>, M: seq<Sent>) {
    forall id: nat :: Highest(L, id) <= Highest(M, id)
  }

  /** What makes it safe to follow a log now and however it grows. */
  ghost predicate Fits(L: seq<Sent>, M: seq<Sent>) {
    Joins(L, M) && NotAhead(L, M)
  }

  /** Each session's first record still to be taken is past what the session has here. */
  ghost predicate FirstsJoin(L: seq<Sent>, M: seq<Sent>) {
    forall i :: |L| <= i < |M| && (forall j :: |L| <= j < i ==> M[j].session != M[i].session) ==>
      M[i].clientSeq > Highest(L, M[i].session)
  }

  /** In a log that increases, the first records decide for the rest. */
  lemma {:induction false} FirstsDecide(L: seq<Sent>, M: seq<Sent>)
    requires Increasing(M)
    ensures FirstsJoin(L, M) <==> Joins(L, M)
  {
    if FirstsJoin(L, M) {
      forall i | |L| <= i < |M|
        ensures M[i].clientSeq > Highest(L, M[i].session)
      {
        FirstBefore(L, M, i, i);
      }
    }
  }

  lemma {:induction false} FirstBefore(L: seq<Sent>, M: seq<Sent>, i: nat, k: nat)
    requires Increasing(M) && FirstsJoin(L, M) && |L| <= k <= i < |M| && M[k].session == M[i].session
    ensures M[i].clientSeq > Highest(L, M[i].session)
    decreases k
  {
    hide Highest;
    if j :| |L| <= j < k && M[j].session == M[k].session {
      FirstBefore(L, M, i, j);
    } else {
      assert M[k].clientSeq > Highest(L, M[k].session);
    }
  }

  /**
   Following a log as it stands keeps every session's sequences increasing, at
   every step of the way, if and only if each session's first record still to
   be taken is past what the session has here.
   */
  lemma {:induction false} FollowIff(L: seq<Sent>, M: seq<Sent>)
    requires Sound(L) && Sound(M) && |L| <= |M|
    ensures FirstsJoin(L, M) <==> forall n :: |L| <= n <= |M| ==> Increasing(Followed(L, M[..n]))
  {
    hide Highest, Increasing;
    FirstsDecide(L, M);
    if Joins(L, M) {
      forall n | |L| <= n <= |M|
        ensures Increasing(Followed(L, M[..n]))
      {
        PrefixIncreases(M, n);
        JoinedIncreases(L, M[..n]);
      }
    }
    if forall n :: |L| <= n <= |M| ==> Increasing(Followed(L, M[..n])) {
      assert Increasing(Followed(L, M[..|M|]));
      assert M[..|M|] == M;
      IncreasesJoined(L, M);
    }
  }

  lemma PrefixIncreases(M: seq<Sent>, n: nat)
    requires Increasing(M) && n <= |M|
    ensures Increasing(M[..n])
  {}

  lemma JoinedIncreases(L: seq<Sent>, M: seq<Sent>)
    requires Increasing(L) && Increasing(M) && |L| <= |M| && Joins(L, M)
    ensures Increasing(Followed(L, M))
  {
    hide Highest;
    var F := Followed(L, M);
    forall i, j | 0 <= i < j < |F| && F[i].session == F[j].session
      ensures F[i].clientSeq < F[j].clientSeq
    {
      if i < |L| <= j {
        HighestIs(L, F[i].session);
        assert F[j] == M[j];
      }
    }
  }

  lemma IncreasesJoined(L: seq<Sent>, M: seq<Sent>)
    requires |L| <= |M| && Sound(M) && Increasing(Followed(L, M))
    ensures Joins(L, M)
  {
    hide Highest;
    var F := Followed(L, M);
    forall i | |L| <= i < |M|
      ensures M[i].clientSeq > Highest(L, M[i].session)
    {
      var h := Highest(L, M[i].session);
      HighestIs(L, M[i].session);
      assert F[i] == M[i];
      if h > 0 {
        var k :| 0 <= k < |L| && L[k] == Sent(M[i].session, h);
        assert F[k] == L[k];
      }
    }
  }

  // ---- what a restart brings back ----

  /** Left-over records in order among themselves, each session's first of them past what it has in the log. */
  ghost predicate Resumes(L: seq<Sent>, extra: seq<Sent>) {
    Sound(extra) && FirstsJoin(L, L + extra)
  }

  /** A restart keeps a log's sequences increasing if and only if what it brings back resumes the log. */
  lemma ResumesIff(L: seq<Sent>, extra: seq<Sent>)
    requires Sound(L)
    ensures Sound(L + extra) <==> Resumes(L, extra)
  {
    hide Highest, FirstsJoin;
    var M := L + extra;
    assert M[|L|..] == extra;
    if Sound(M) {
      assert forall i :: 0 <= i < |extra| ==> extra[i] == M[|L| + i];
      FirstsDecide(L, M);
      forall i | |L| <= i < |M|
        ensures M[i].clientSeq > Highest(L, M[i].session)
      {
        LaterHigher(L, M, i);
      }
    }
    if Resumes(L, extra) {
      ResumedJoins(L, extra);
      forall i, j | 0 <= i < j < |M| && M[i].session == M[j].session
        ensures M[i].clientSeq < M[j].clientSeq
      {
        if i < |L| <= j { HighestIs(L, M[i].session); }
      }
    }
  }

  lemma ResumedJoins(L: seq<Sent>, extra: seq<Sent>)
    requires Resumes(L, extra)
    ensures Joins(L, L + extra)
  {
    hide Highest;
    forall i | 0 <= i < |extra|
      ensures extra[i].clientSeq > Highest(L, extra[i].session)
    {
      ResumedFirst(L, extra, i, i);
    }
  }

  lemma {:induction false} ResumedFirst(L: seq<Sent>, extra: seq<Sent>, i: nat, k: nat)
    requires Resumes(L, extra) && k <= i < |extra| && extra[k].session == extra[i].session
    ensures extra[i].clientSeq > Highest(L, extra[i].session)
    decreases k
  {
    hide Highest;
    var M := L + extra;
    if j :| 0 <= j < k && extra[j].session == extra[k].session {
      ResumedFirst(L, extra, i, j);
    } else {
      forall j | |L| <= j < |L| + k
        ensures M[j].session != M[|L| + k].session
      {
        assert M[j] == extra[j - |L|];
      }
      assert M[|L| + k].clientSeq > Highest(L, M[|L| + k].session);
    }
  }

  // ---- and following it as it grows ----

  /** Records of sessions that nobody else has, one each. */
  function Fillers(id: nat, n: nat): (f: seq<Sent>)
    ensures |f| == n && forall i :: 0 <= i < n ==> f[i] == Sent(id + i, 1)
  {
    seq(n, i requires 0 <= i < n => Sent(id + i, 1))
  }

  /** An id above every session of a log. */
  function Above(log: seq<Sent>): (id: nat)
    ensures forall i :: 0 <= i < |log| ==> log[i].session < id
  {
    if log == [] then 0
    else
      var id := Above(log[..|log| - 1]);
      if log[|log| - 1].session < id then id else log[|log| - 1].session + 1
  }

  /** M grown past the end of L by one session's next write, behind writes of new sessions if need be. */
  function Grown(L: seq<Sent>, M: seq<Sent>, r: Sent): (G: seq<Sent>)
    ensures M <= G && |G| > |L| && G[|G| - 1] == r
  {
    M + Fillers(Above(L + M + [r]), if |L| > |M| then |L| - |M| else 0) + [r]
  }

  lemma {:induction false} GrownSound(L: seq<Sent>, M: seq<Sent>, r: Sent)
    requires Sound(M) && r.clientSeq > Highest(M, r.session)
    ensures Sound(Grown(L, M, r))
  {
    hide Highest, Above;
    var G, all := Grown(L, M, r), L + M + [r];
    HighestIs(M, r.session);
    forall i | 0 <= i < |M|
      ensures M[i].session < Above(all)
    {
      assert all[|L| + i] == M[i];
    }
    assert all[|L| + |M|] == r;
    forall i, j | 0 <= i < j < |G| && G[i].session == G[j].session
      ensures G[i].clientSeq < G[j].clientSeq
    {
    }
  }

  /** Once a log fits it goes on fitting however the log followed grows. */
  lemma {:induction false} FitsGrows(L: seq<Sent>, M: seq<Sent>, G: seq<Sent>)
    requires Fits(L, M) && M <= G && Sound(G)
    ensures Fits(L, G)
  {
    hide Highest;
    forall i | |L| <= i < |G|
      ensures G[i].clientSeq > Highest(L, G[i].session)
    {
      if i < |M| {
        assert M[i] == G[i];
      } else {
        LaterHigher(M, G, i);
      }
    }
    forall id: nat
      ensures Highest(L, id) <= Highest(G, id)
    {
      HighestMore(M, G, id);
    }
  }

  lemma {:induction false} LaterHigher(M: seq<Sent>, G: seq<Sent>, i: nat)
    requires M <= G && Sound(G) && |M| <= i < |G|
    ensures G[i].clientSeq > Highest(M, G[i].session)
  {
    hide Highest;
    HighestIs(M, G[i].session);
    var h := Highest(M, G[i].session);
    if h > 0 {
      var k :| 0 <= k < |M| && M[k] == Sent(G[i].session, h);
      assert G[k] == M[k];
    }
  }

  lemma {:induction false} HighestMore(M: seq<Sent>, G: seq<Sent>, id: nat)
    requires M <= G
    ensures Highest(M, id) <= Highest(G, id)
  {
    hide Highest;
    HighestIs(M, id);
    HighestIs(G, id);
    if Highest(M, id) > 0 {
      var k :| 0 <= k < |M| && M[k] == Sent(id, Highest(M, id));
      assert G[k] == M[k];
    }
  }

  /**
   A replica may follow a log for as long as it likes, however the log grows,
   if and only if each session's first record still to be taken is past what
   the session has here, and no session has got further here than there.
   */
  lemma {:induction false} FollowForeverIff(L: seq<Sent>, M: seq<Sent>)
    requires Sound(L) && Sound(M)
    ensures Fits(L, M) <==> forall G :: M <= G && Sound(G) ==> Increasing(Followed(L, G))
  {
    hide Highest, Increasing, Joins, NotAhead, Sound, Followed;
    if Fits(L, M) {
      forall G | M <= G && Sound(G)
        ensures Increasing(Followed(L, G))
      {
        FitsGrows(L, M, G);
        FitsIncreases(L, G);
      }
    } else {
      var G := Misfit(L, M);
      assert M <= G && Sound(G) && !Increasing(Followed(L, G));
    }
  }

  lemma FitsIncreases(L: seq<Sent>, G: seq<Sent>)
    requires Sound(L) && Sound(G) && Fits(L, G)
    ensures Increasing(Followed(L, G))
  {
    hide Highest;
    if |L| <= |G| { JoinedIncreases(L, G); }
  }

  /** How a log that does not fit can grow so that following it stores a sequence again or out of order. */
  lemma {:induction false} Misfit(L: seq<Sent>, M: seq<Sent>) returns (G: seq<Sent>)
    requires Sound(L) && Sound(M) && !Fits(L, M)
    ensures M <= G && Sound(G) && !Increasing(Followed(L, G))
  {
    hide Highest, Grown;
    if !Joins(L, M) {
      G := M;
      if Increasing(Followed(L, M)) { IncreasesJoined(L, M); }
    } else {
      var id: nat :| Highest(L, id) > Highest(M, id);
      var r := Sent(id, Highest(L, id));
      G := Grown(L, M, r);
      GrownSound(L, M, r);
      HighestIs(L, id);
      var k :| 0 <= k < |L| && L[k] == r;
      var F := Followed(L, G);
      assert F[k] == r && F[|G| - 1] == r;
    }
  }

  /** A log that is a prefix of another fits it. */
  lemma {:induction false} PrefixFits(L: seq<Sent>, M: seq<Sent>)
    requires L <= M && Sound(M)
    ensures Fits(L, M)
  {
    hide Highest;
    forall i | |L| <= i < |M|
      ensures M[i].clientSeq > Highest(L, M[i].session)
    {
      LaterHigher(L, M, i);
    }
    forall id: nat
      ensures Highest(L, id) <= Highest(M, id)
    {
      HighestMore(L, M, id);
    }
  }

  /** Taking the next record keeps the fit. */
  lemma {:induction false} FitsTaken(L: seq<Sent>, M: seq<Sent>)
    requires Sound(L) && Sound(M) && Fits(L, M) && |L| < |M|
    ensures Sound(L + [M[|L|]]) && Fits(L + [M[|L|]], M)
  {
    var r := M[|L|];
    var N := L + [r];
    hide Highest;
    HighestIs(L, r.session);
    HighestIs(M, r.session);
    forall i | |N| <= i < |M|
      ensures M[i].clientSeq > Highest(N, M[i].session)
    {
      PushLast(L, r, M[i].session);
    }
    forall id: nat
      ensures Highest(N, id) <= Highest(M, id)
    {
      PushLast(L, r, id);
    }
  }

  // ---- the table and the log ----

  /** The table never disagrees with the log. */
  ghost predicate Knows(t: seq<Sess>, log: seq<Sent>) {
    && (forall k :: 0 <= k < |t| ==> t[k].id != 0 && t[k].mark == Highest(log, t[k].id))
    && (forall j, k :: 0 <= j < k < |t| ==> t[j].id != t[k].id)
  }

  lemma UnusedHighest(log: seq<Sent>, id: nat)
    requires Unused(log, id)
    ensures Highest(log, id) == 0
  {
    HighestIs(log, id);
  }

  lemma KnowsOpened(t: seq<Sess>, log: seq<Sent>, id: nat)
    requires Knows(t, log) && id != 0 && Find(t, id) == |t| && Unused(log, id)
    ensures Knows(Opened(t, id), log)
  {
    UnusedHighest(log, id);
    hide Highest, Find, SESSION_MAX;
    NoneFound(t, id);
  }

  lemma NoneFound(t: seq<Sess>, id: nat)
    requires Find(t, id) == |t|
    ensures forall j :: 0 <= j < |t| ==> t[j].id != id
  {}

  lemma {:induction false} KnowsElsewhere(t: seq<Sess>, log: seq<Sent>, r: Sent)
    requires Knows(t, log) && forall k :: 0 <= k < |t| ==> t[k].id != r.session
    ensures Knows(t, log + [r])
  {
    hide Highest;
    forall k | 0 <= k < |t|
      ensures t[k].mark == Highest(log + [r], t[k].id)
    {
      PushLast(log, r, t[k].id);
    }
  }

  lemma KnowsEnd(t: seq<Sess>, log: seq<Sent>, x: Sess)
    requires Knows(t, log) && x.id != 0 && x.mark == Highest(log, x.id)
    requires forall k :: 0 <= k < |t| ==> t[k].id != x.id
    ensures Knows(t + [x], log)
  {
    hide Highest;
  }

  lemma KnowsDrop(t: seq<Sess>, log: seq<Sent>, k: nat)
    requires Knows(t, log) && k < |t|
    ensures Knows(Drop(t, k), log) && forall j :: 0 <= j < |t| - 1 ==> Drop(t, k)[j].id != t[k].id
  {
    hide Highest;
    assert forall j :: 0 <= j < |t| - 1 ==> Drop(t, k)[j] == t[if j < k then j else j + 1];
  }

  /** A held session's new record, higher than its mark, keeps both in step. */
  lemma {:induction false} KnowsRaised(t: seq<Sess>, log: seq<Sent>, k: nat, clientSeq: nat)
    requires Knows(t, log) && Increasing(log) && k < |t| && clientSeq > t[k].mark
    ensures var r := Sent(t[k].id, clientSeq);
      Increasing(log + [r]) && Knows(Raised(t, k, clientSeq), log + [r])
  {
    hide Highest, LastAt;
    var r := Sent(t[k].id, clientSeq);
    HighestIs(log, t[k].id);
    KnowsDrop(t, log, k);
    KnowsElsewhere(Drop(t, k), log, r);
    PushLast(log, r, t[k].id);
    KnowsEnd(Drop(t, k), log + [r], Sess(t[k].id, clientSeq));
  }

  /** A record taken from a log that is increasing. */
  lemma {:induction false} KnowsObserved(t: seq<Sess>, log: seq<Sent>, r: Sent)
    requires Knows(t, log) && Increasing(log + [r])
    ensures Knows(Observed(t, r.session, r.clientSeq), log + [r])
  {
    var k := Find(t, r.session);
    PushLast(log, r, r.session);
    HighestIsLast(log + [r], r.session);
    hide Highest, LastAt, Increasing;
    if r.session == 0 {
      KnowsElsewhere(t, log, r);
    } else if k < |t| {
      KnowsDrop(t, log, k);
      KnowsElsewhere(Drop(t, k), log, r);
      KnowsEnd(Drop(t, k), log + [r], Sess(r.session, r.clientSeq));
    } else {
      NoneFound(t, r.session);
      KnowsElsewhere(Evict(t), log, r);
      KnowsEnd(Evict(t), log + [r], Sess(r.session, r.clientSeq));
    }
  }

  /** A table rebuilt from the records still held knows as much of each session as the whole log says. */
  lemma {:induction false} KnowsRebuilt(log: seq<Sent>, first: nat)
    requires Increasing(log) && first <= |log|
    ensures Knows(Fold(log[first..]), log)
  {
    var part := log[first..];
    assert Increasing(part);
    FoldIs(part);
    var t := Fold(part);
    assert Held(t, part) && ByAge(t, part);
    hide Fold, Highest, LastAt;
    forall k | 0 <= k < |t|
      ensures t[k].mark == Highest(log, t[k].id)
    {
      SuffixHighest(log, first, t[k].id);
    }
  }

  lemma {:induction false} SuffixHighest(log: seq<Sent>, first: nat, id: nat)
    requires Increasing(log) && first <= |log| && LastAt(log[first..], id) >= 0
    ensures Highest(log[first..], id) == Highest(log, id)
  {
    hide Highest, LastAt;
    var part := log[first..];
    HighestIsLast(part, id);
    HighestIsLast(log, id);
    LastAtIs(part, id);
    LastAtIs(log, id);
    assert part[LastAt(part, id)] == log[first + LastAt(part, id)];
    assert forall i :: LastAt(part, id) < i < |part| ==> part[i] == log[first + i];
    assert forall i :: first + LastAt(part, id) < i < |log| ==> log[i] == part[i - first];
  }

  // ---- each step ----

  /** The log increases and the table says of each session what the log says. */
  ghost predicate Exact(s: Server) {
    Sound(s.log) && Knows(s.table, s.log)
  }

  function Flushed(s: Server): seq<Sent> {
    if s.durable <= |s.log| then s.log[..s.durable] else s.log
  }

  /** Whatever a node is following fits what it holds. */
  ghost predicate LinkOk(nodes: seq<Server>, n: nat)
    requires n < |nodes|
  {
    nodes[n].source.Some? ==>
      && nodes[n].follower && nodes[n].source.value < |nodes| && nodes[n].source.value != n
      && Fits(nodes[n].log, Flushed(nodes[nodes[n].source.value]))
  }

  ghost predicate AllExact(nodes: seq<Server>) {
    AllOk(nodes) && forall n :: 0 <= n < |nodes| ==> Exact(nodes[n]) && LinkOk(nodes, n)
  }

  lemma WriteExact(s: Server, e: Event)
    requires Exact(s) && e.Write? && e.i < |s.conns|
    ensures Exact(Written(s, e.i, e.clientSeq, e.ackReq, e.replicated, e.refused, e.fails, e.rolls))
  {
    hide Knows, Increasing, Raised, Owed;
    var c, k := s.conns[e.i], Find(s.table, s.conns[e.i].session);
    if c.session != 0 && k < |s.table| && e.clientSeq > s.table[k].mark {
      KnowsRaised(s.table, s.log, k, e.clientSeq);
    }
  }

  lemma HelloExact(s: Server, i: nat, id: nat, draws: seq<nat>)
    requires Exact(s) && i < |s.conns| && |draws| == DRAWS
    requires id == 0 && Drawn(s.table, draws, DRAWS).Some? ==> Unused(s.log, Drawn(s.table, draws, DRAWS).value)
    ensures Exact(Greeted(s, i, id, draws))
  {
    hide Knows, Increasing, Opened, Unused, Drawn;
    DrawnIs(s.table, draws, DRAWS);
    var d := Drawn(s.table, draws, DRAWS);
    if id == 0 && d.Some? {
      KnowsOpened(s.table, s.log, d.value);
    }
  }

  lemma TakeExact(s: Server, r: Sent, rolls: Option<seq<Sent>>)
    requires Exact(s) && Sound(s.log + [r])
    ensures Exact(Taken(s, r, rolls))
  {
    hide Knows;
    KnowsObserved(s.table, s.log, r);
  }

  lemma RestartExact(s: Server, kept: nat, extra: seq<Sent>, from: nat, follower: bool)
    requires Exact(s) && from <= kept <= |s.log|
    ensures Exact(Restarted(s, kept, extra, from, follower)) <==> Resumes(s.log[..kept], extra)
  {
    hide Knows, Fold;
    var t := Restarted(s, kept, extra, from, follower);
    PrefixSound(s.log, kept);
    ResumesIff(s.log[..kept], extra);
    if Sound(t.log) { KnowsRebuilt(t.log, from); }
  }

  lemma StepExact(nodes: seq<Server>, n: nat, e: Event)
    requires n < |nodes| && Exact(nodes[n]) && Enabled(nodes, n, e)
    requires e.Take? ==> Sound(nodes[n].log + [e.r])
    requires e.Restart? ==> Resumes(nodes[n].log[..e.kept], e.extra)
    ensures Exact(Step(nodes, n, e))
  {
    hide Sound, Knows, Written, Greeted, Taken, Emitted, Restarted, Resumes;
    var s := nodes[n];
    match e
    case Hello(i, id, draws) => HelloExact(s, i, id, draws);
    case Write(_, _, _, _, _, _, _) => WriteExact(s, e);
    case Take(r, rolls) => TakeExact(s, r, rolls);
    case Restart(k, extra, from, f) => RestartExact(s, k, extra, from, f);
    case _ =>
  }

  /**
   A log attached to fits, what a stream hands over is in its place and leaves
   the rest to come in its own, and a restart brings back nothing out of place.
   */
  ghost predicate Suits(nodes: seq<Server>, e: (nat, Event))
    requires Enabled(nodes, e.0, e.1)
  {
    && (e.1.Attach? ==> Fits(nodes[e.0].log, Flushed(nodes[e.1.to])))
    && (e.1.Take? ==>
          var log := nodes[e.0].log + [e.1.r];
          Sound(log) && Fits(log, Flushed(nodes[nodes[e.0].source.value])))
    && (e.1.Restart? ==> Resumes(nodes[e.0].log[..e.1.kept], e.1.extra))
  }

  /** A stream hands over the record its leader has logged there. */
  predicate TakesOwn(nodes: seq<Server>, e: (nat, Event))
    requires Enabled(nodes, e.0, e.1)
  {
    e.1.Take? ==> e.1.r == nodes[nodes[e.0].source.value].log[|nodes[e.0].log|]
  }

  /** What a node has flushed it keeps, and only adds to. */
  lemma FlushedGrows(nodes: seq<Server>, n: nat, e: Event)
    requires n < |nodes| && Dedup.Ok(nodes[n]) && Enabled(nodes, n, e)
    ensures Flushed(nodes[n]) <= Flushed(Step(nodes, n, e))
  {
    hide Marked, ConnOk, Stored, Owed, Observed, Raised, Emitted, Drawn, Fold;
  }

  /** Between attaching and letting go a replica's log changes only by what it takes. */
  lemma SourceKept(nodes: seq<Server>, n: nat, e: Event)
    requires n < |nodes| && Enabled(nodes, n, e) && !e.Attach? && !e.Take?
    requires nodes[n].source.Some? ==> nodes[n].follower
    ensures var t := Step(nodes, n, e);
      t.source.Some? ==> t.source == nodes[n].source && t.log == nodes[n].log && t.follower
  {
    hide Owed, Raised, Emitted, Drawn, Fold;
  }

  lemma PrefixSound(log: seq<Sent>, n: nat)
    requires Sound(log) && n <= |log|
    ensures Sound(log[..n])
  {}

  lemma FlushedSound(s: Server)
    requires Sound(s.log)
    ensures Sound(Flushed(s))
  {
    hide Sound;
    if s.durable <= |s.log| { PrefixSound(s.log, s.durable); }
  }

  /** The leader's own next record always suits. */
  lemma TakeFits(nodes: seq<Server>, e: (nat, Event))
    requires AllExact(nodes) && Enabled(nodes, e.0, e.1) && e.1.Take? && TakesOwn(nodes, e)
    ensures Suits(nodes, e)
  {
    hide Sound, Fits, Knows, Marked, ConnOk;
    var s := nodes[e.0];
    var m := nodes[s.source.value];
    assert LinkOk(nodes, e.0) && Exact(m);
    FlushedSound(m);
    FitsTaken(s.log, Flushed(m));
  }

  lemma AfterExact(nodes: seq<Server>, e: (nat, Event))
    requires AllExact(nodes) && Enabled(nodes, e.0, e.1)
    requires Suits(nodes, e)
    ensures AllExact(After(nodes, e))
  {
    hide Sound, Fits, Dedup.Ok, Knows, Enabled, Step, Resumes;
    var n, t := e.0, After(nodes, e);
    EnabledIndex(nodes, n, e.1);
    assert Exact(nodes[n]) && LinkOk(nodes, n) && Dedup.Ok(nodes[n]);
    AfterOk(nodes, e);
    TakenSuits(nodes, e);
    StepExact(nodes, n, e.1);
    FlushedGrows(nodes, n, e.1);
    FlushedSound(t[n]);
    forall k | 0 <= k < |t|
      ensures LinkOk(t, k)
    {
      assert LinkOk(nodes, k);
      if k == n {
        OwnLink(nodes, e);
      } else if t[k].source == Some(n) {
        FitsGrows(t[k].log, Flushed(nodes[n]), Flushed(t[n]));
      }
    }
  }

  lemma TakenSuits(nodes: seq<Server>, e: (nat, Event))
    requires Enabled(nodes, e.0, e.1) && Suits(nodes, e)
    ensures e.0 < |nodes|
    ensures e.1.Take? ==> Sound(nodes[e.0].log + [e.1.r])
    ensures e.1.Restart? ==> e.1.kept <= |nodes[e.0].log| && Resumes(nodes[e.0].log[..e.1.kept], e.1.extra)
  {
    hide Sound, Fits, Resumes;
  }

  lemma EnabledIndex(nodes: seq<Server>, n: nat, e: Event)
    requires Enabled(nodes, n, e)
    ensures n < |nodes|
    ensures e.Attach? ==> e.to < |nodes| && e.to != n && nodes[n].follower
    ensures e.Take? ==> nodes[n].source.Some? && nodes[n].source.value < |nodes|
  {}

  /** The moving node's own link. */
  lemma OwnLink(nodes: seq<Server>, e: (nat, Event))
    requires AllExact(nodes) && Enabled(nodes, e.0, e.1)
    requires Suits(nodes, e)
    ensures e.0 < |nodes| && LinkOk(After(nodes, e), e.0)
  {
    hide Sound, Fits, Dedup.Ok, Knows;
    var n := e.0;
    assert LinkOk(nodes, n);
    if !e.1.Attach? && !e.1.Take? {
      SourceKept(nodes, n, e.1);
    }
    hide Enabled;
  }

  // ---- whole runs ----

  /**
   The exact condition of a step: it leaves every node's log increasing, its
   table in agreement and whatever it follows fitting if and only if it suits.
   */
  lemma SuitsIff(nodes: seq<Server>, e: (nat, Event))
    requires AllExact(nodes) && Enabled(nodes, e.0, e.1)
    ensures AllExact(After(nodes, e)) <==> Suits(nodes, e)
  {
    hide Sound, Fits, Dedup.Ok, Knows, Resumes;
    if Suits(nodes, e) {
      AfterExact(nodes, e);
    } else {
      var n := e.0;
      assert Exact(nodes[n]) && LinkOk(nodes, n);
      if e.1.Restart? {
        RestartExact(nodes[n], e.1.kept, e.1.extra, e.1.from, e.1.follower);
        hide Enabled;
        assert !Exact(After(nodes, e)[n]);
      } else {
        Unsuited(nodes, e);
      }
    }
  }

  lemma Unsuited(nodes: seq<Server>, e: (nat, Event))
    requires AllExact(nodes) && Enabled(nodes, e.0, e.1) && !Suits(nodes, e) && !e.1.Restart?
    ensures e.0 < |nodes| && !(Exact(After(nodes, e)[e.0]) && LinkOk(After(nodes, e), e.0))
  {
    hide Sound, Fits, Dedup.Ok, Knows, Resumes, Observed;
    assert LinkOk(nodes, e.0);
  }

  /** Every step of the run suits. */
  ghost predicate Fitting(nodes: seq<Server>, es: seq<(nat, Event)>)
    requires RunsTo(nodes, es)
    decreases |es|
  {
    es == [] || (Suits(nodes, es[0]) && Fitting(After(nodes, es[0]), es[1..]))
  }

  lemma {:induction false} RunExact(nodes: seq<Server>, es: seq<(nat, Event)>)
    requires AllExact(nodes) && RunsTo(nodes, es) && Fitting(nodes, es)
    ensures AllExact(EndOf(nodes, es))
    decreases |es|
  {
    hide AllExact, Enabled, Step, Suits;
    if es != [] {
      AfterExact(nodes, es[0]);
      RunExact(After(nodes, es[0]), es[1..]);
    }
  }

  /** A rollover of this step, if it has one, leaves nothing behind. */
  predicate LeavesNothing(e: Event) {
    (e.Write? || e.Take?) && e.rolls.Some? ==> e.rolls.value == []
  }

  ghost predicate TakesOwnRun(nodes: seq<Server>, es: seq<(nat, Event)>)
    requires RunsTo(nodes, es)
    decreases |es|
  {
    es == [] || (TakesOwn(nodes, es[0]) && TakesOwnRun(After(nodes, es[0]), es[1..]))
  }

  lemma LeftStays(nodes: seq<Server>, e: (nat, Event))
    requires Enabled(nodes, e.0, e.1) && LeavesNothing(e.1)
    requires forall n :: 0 <= n < |nodes| ==> nodes[n].left == {}
    ensures forall n :: 0 <= n < |After(nodes, e)| ==> After(nodes, e)[n].left == {}
  {
    hide Owed, Raised, Emitted, Drawn, Fold, Observed;
    assert LeftBehind(|nodes[e.0].log|, []) == {};
  }

  /** While rollovers leave nothing behind, streams hand over nothing but their leaders' own records. */
  lemma {:induction false} TidyTakesOwn(nodes: seq<Server>, es: seq<(nat, Event)>)
    requires RunsTo(nodes, es) && forall n :: 0 <= n < |nodes| ==> nodes[n].left == {}
    requires forall i :: 0 <= i < |es| ==> LeavesNothing(es[i].1)
    ensures TakesOwnRun(nodes, es)
    decreases |es|
  {
    hide Enabled, Step, TakesOwn, LeavesNothing;
    if es != [] {
      FromNothing(nodes, es[0]);
      LeftStays(nodes, es[0]);
      assert forall i :: 0 <= i < |es[1..]| ==> es[1..][i] == es[i + 1];
      TidyTakesOwn(After(nodes, es[0]), es[1..]);
    }
  }

  lemma FromNothing(nodes: seq<Server>, e: (nat, Event))
    requires Enabled(nodes, e.0, e.1) && forall n :: 0 <= n < |nodes| ==> nodes[n].left == {}
    ensures TakesOwn(nodes, e)
  {}

  /** At every moment of the run. */
  ghost predicate ExactThroughout(nodes: seq<Server>, es: seq<(nat, Event)>)
    requires RunsTo(nodes, es)
    decreases |es|
  {
    AllExact(nodes) && (es == [] || ExactThroughout(After(nodes, es[0]), es[1..]))
  }

  /** The logs increase, the tables agree and what is followed fits at every moment of a run iff every step suits. */
  lemma {:induction false} ExactIff(nodes: seq<Server>, es: seq<(nat, Event)>)
    requires AllExact(nodes) && RunsTo(nodes, es)
    ensures ExactThroughout(nodes, es) <==> Fitting(nodes, es)
    decreases |es|
  {
    hide AllExact, Enabled, Step, Suits;
    if es != [] {
      SuitsIff(nodes, es[0]);
      if Suits(nodes, es[0]) {
        ExactIff(After(nodes, es[0]), es[1..]);
      } else {
        NotThroughout(After(nodes, es[0]), es[1..]);
      }
    }
  }

  lemma NotThroughout(nodes: seq<Server>, es: seq<(nat, Event)>)
    requires RunsTo(nodes, es) && !AllExact(nodes)
    ensures !ExactThroughout(nodes, es)
  {}

  lemma FreshExact(nodes: seq<Server>)
    requires Fresh(nodes)
    ensures AllExact(nodes)
  {
    FreshOk(nodes);
  }

  /**
   At-most-once storage: in every run in which replicas attach only to logs
   that fit, streams hand over only records that suit and restarts bring back
   only records that resume the log, on every node a session's sequences
   strictly increase along the log, so no write is stored twice; and the table
   says of every session it holds exactly what the log says.
   */
  lemma StoredOnce(nodes: seq<Server>, es: seq<(nat, Event)>, n: nat)
    requires Fresh(nodes) && RunsTo(nodes, es) && Fitting(nodes, es) && n < |EndOf(nodes, es)|
    ensures var s := EndOf(nodes, es)[n];
      && Increasing(s.log) && (forall i, j :: 0 <= i < j < |s.log| ==> s.log[i] != s.log[j])
      && forall k :: 0 <= k < |s.table| ==> s.table[k].mark == Highest(s.log, s.table[k].id)
  {
    FreshExact(nodes);
    RunExact(nodes, es);
    hide EndOf, RunsTo, Fitting;
    assert Exact(EndOf(nodes, es)[n]);
  }

  /**
   Every attachment of the run is to a log this node's own is a prefix of, every
   record taken is the leader's own, and nothing comes back at a restart.
   */
  ghost predicate ByPrefix(nodes: seq<Server>, es: seq<(nat, Event)>)
    requires RunsTo(nodes, es)
    decreases |es|
  {
    es == [] ||
    (&& (es[0].1.Attach? ==> nodes[es[0].0].log <= Flushed(nodes[es[0].1.to]))
     && TakesOwn(nodes, es[0])
     && (es[0].1.Restart? ==> es[0].1.extra == [])
     && ByPrefix(After(nodes, es[0]), es[1..]))
  }

  /** A run like that suits at every step. */
  lemma {:induction false} PrefixesFit(nodes: seq<Server>, es: seq<(nat, Event)>)
    requires AllExact(nodes) && RunsTo(nodes, es) && ByPrefix(nodes, es)
    ensures Fitting(nodes, es)
    decreases |es|
  {
    hide Enabled, Step, Suits, Dedup.Ok, Exact, LinkOk;
    if es != [] {
      PrefixSuits(nodes, es[0]);
      AfterExact(nodes, es[0]);
      PrefixesFit(After(nodes, es[0]), es[1..]);
    }
  }

  lemma NothingResumes(L: seq<Sent>, extra: seq<Sent>)
    requires extra == []
    ensures Resumes(L, extra)
  {}

  lemma PrefixSuits(nodes: seq<Server>, e: (nat, Event))
    requires AllExact(nodes) && Enabled(nodes, e.0, e.1)
    requires e.1.Attach? ==> nodes[e.0].log <= Flushed(nodes[e.1.to])
    requires TakesOwn(nodes, e)
    requires e.1.Restart? ==> e.1.extra == []
    ensures Suits(nodes, e)
  {
    hide Sound, Fits, Dedup.Ok, Knows, Resumes;
    if e.1.Attach? {
      assert Exact(nodes[e.1.to]);
      FlushedSound(nodes[e.1.to]);
      PrefixFits(nodes[e.0].log, Flushed(nodes[e.1.to]));
    }
    if e.1.Take? { TakeFits(nodes, e); }
    if e.1.Restart? { NothingResumes(nodes[e.0].log[..e.1.kept], e.1.extra); }
  }

  /** Every record of the session up to that sequence is among the first n. */
  ghost predicate CoveredBy(log: seq<Sent>, t: Told, n: nat) {
    forall i :: 0 <= i < |log| && log[i].session == t.session && log[i].clientSeq <= t.clientSeq ==> i < n
  }

  /** A write the log already holds is never appended again, whoever sends it and whatever was evicted. */
  lemma ResendNotStored(s: Server, e: Event)
    requires Exact(s) && e.Write? && e.i < |s.conns| && Sent(s.conns[e.i].session, e.clientSeq) in s.log
    ensures Written(s, e.i, e.clientSeq, e.ackReq, e.replicated, e.refused, e.fails, e.rolls).log == s.log
  {
    hide Highest, Increasing;
    HighestIs(s.log, s.conns[e.i].session);
  }

  /**
   What a client has been sent about its own sequence is cumulative: every
   record of that session up to it is flushed as well.
   */
  lemma ToldIsFlushed(nodes: seq<Server>, es: seq<(nat, Event)>, n: nat, t: Told)
    requires Fresh(nodes) && RunsTo(nodes, es) && Fitting(nodes, es)
    requires n < |EndOf(nodes, es)| && t in EndOf(nodes, es)[n].sent
    ensures var s := EndOf(nodes, es)[n];
      && s.durable <= |s.log|
      && (t.clientSeq > 0 ==> Sent(t.session, t.clientSeq) in s.log[..s.durable])
      && (t.clientSeq > 0 ==> CoveredBy(s.log, t, s.durable))
  {
    ToldIsStored(nodes, es, n, t);
    FreshExact(nodes);
    RunExact(nodes, es);
    hide EndOf, RunsTo, Fitting, Knows, Dedup.Ok;
    var s := EndOf(nodes, es)[n];
    assert Exact(s);
    if t.clientSeq > 0 {
      var i :| 0 <= i < s.durable && s.log[..s.durable][i] == Sent(t.session, t.clientSeq);
      assert s.log[i] == Sent(t.session, t.clientSeq);
    }
  }
}
