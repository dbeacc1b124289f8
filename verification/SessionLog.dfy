/**
 What the session table is after a walk of the log: the sessions written most
 recently, each with the highest sequence the log holds for it.
 */
module SessionLog {
  import opened Sessions

  /** What the table reads from a record. */
  datatype Sent = Sent(session: nat, clientSeq: nat)

  function Fold(log: seq<Sent>): seq<Sess> {
    if log == [] then []
    else Observed(Fold(log[..|log| - 1]), log[|log| - 1].session, log[|log| - 1].clientSeq)
  }

  /** Where a session was last written; -1 when it never was. */
  function LastAt(log: seq<Sent>, id: nat): (i: int)
    ensures -1 <= i < |log|
  {
    if log == [] then -1
    else if log[|log| - 1].session == id then |log| - 1
    else LastAt(log[..|log| - 1], id)
  }

  /** The highest sequence a session has in the log, 0 when it has none. */
  function Highest(log: seq<Sent>, id: nat): nat {
    if log == [] then 0
    else
      var h, r := Highest(log[..|log| - 1], id), log[|log| - 1];
      if r.session == id && r.clientSeq > h then r.clientSeq else h
  }

  /** Along the log each session's sequences strictly increase. */
  ghost predicate Increasing(log: seq<Sent>) {
    forall i, j :: 0 <= i < j < |log| && log[i].session == log[j].session ==> log[i].clientSeq < log[j].clientSeq
  }

  lemma {:induction false} LastAtIs(log: seq<Sent>, id: nat)
    ensures LastAt(log, id) >= 0 ==> log[LastAt(log, id)].session == id
    ensures forall i :: LastAt(log, id) < i < |log| ==> log[i].session != id
  {
    if log != [] && log[|log| - 1].session != id {
      LastAtIs(log[..|log| - 1], id);
    }
  }

  lemma {:induction false} HighestIs(log: seq<Sent>, id: nat)
    ensures forall i :: 0 <= i < |log| && log[i].session == id ==> log[i].clientSeq <= Highest(log, id)
    ensures Highest(log, id) > 0 ==> Sent(id, Highest(log, id)) in log
  {
    if log != [] {
      HighestIs(log[..|log| - 1], id);
    }
  }

  /** In an increasing log the highest is the last. */
  lemma {:induction false} HighestIsLast(log: seq<Sent>, id: nat)
    requires Increasing(log)
    ensures Highest(log, id) == if LastAt(log, id) >= 0 then log[LastAt(log, id)].clientSeq else 0
  {
    LastAtIs(log, id);
    HighestIs(log, id);
    if Highest(log, id) > 0 {
      var i :| 0 <= i < |log| && log[i] == Sent(id, Highest(log, id));
    }
  }

  // ---- the table is the most recently written sessions ----

  /** Held sessions are in the log, each with its highest sequence. */
  ghost predicate Held(t: seq<Sess>, log: seq<Sent>) {
    forall k :: 0 <= k < |t| ==> t[k].id != 0 && LastAt(log, t[k].id) >= 0 && t[k].mark == Highest(log, t[k].id)
  }

  /** Least recently written first. */
  ghost predicate ByAge(t: seq<Sess>, log: seq<Sent>) {
    forall j, k :: 0 <= j < k < |t| ==> LastAt(log, t[j].id) < LastAt(log, t[k].id)
  }

  /** A session left out was last written before any that is held, and only because the table is full. */
  ghost predicate LeftOutOlder(t: seq<Sess>, log: seq<Sent>) {
    forall id: nat :: id != 0 && LastAt(log, id) >= 0 && Find(t, id) == |t| ==>
      |t| == SESSION_MAX && LastAt(log, id) < LastAt(log, t[0].id)
  }

  /**
   t holds exactly the SESSION_MAX sessions of the log written most recently,
   least recent first, each with its highest sequence.
   */
  ghost predicate MostRecent(t: seq<Sess>, log: seq<Sent>) {
    |t| <= SESSION_MAX && Held(t, log) && ByAge(t, log) && LeftOutOlder(t, log)
  }

  lemma {:induction false} PushLast(log: seq<Sent>, r: Sent, id: nat)
    ensures LastAt(log + [r], id) == if r.session == id then |log| else LastAt(log, id)
    ensures Highest(log + [r], id) ==
      if r.session == id && r.clientSeq > Highest(log, id) then r.clientSeq else Highest(log, id)
  {
    assert (log + [r])[..|log|] == log;
  }

  /** u is t with entry k, or the one evicted when k is not in t, taken out, and id put at the end. */
  ghost predicate Rotated(t: seq<Sess>, u: seq<Sess>, k: nat) {
    && 0 < |u| && |t| <= |u| <= |t| + 1 && k <= |u| - 1
    && (|u| == |t| + 1 ==> k == |t|)
    && forall j :: 0 <= j < |u| - 1 ==> u[j] == t[if j < k then j else j + 1]
  }

  lemma {:induction false} HeldPush(t: seq<Sess>, u: seq<Sess>, k: nat, log: seq<Sent>, r: Sent)
    requires Held(t, log) && Rotated(t, u, k) && r.session != 0
    requires forall j :: 0 <= j < |t| && j != k ==> t[j].id != r.session
    requires u[|u| - 1] == Sess(r.session, Highest(log + [r], r.session))
    ensures Held(u, log + [r])
  {
    hide LastAt, Highest;
    forall j | 0 <= j < |u|
      ensures u[j].id != 0 && LastAt(log + [r], u[j].id) >= 0 && u[j].mark == Highest(log + [r], u[j].id)
    {
      PushLast(log, r, u[j].id);
    }
  }

  lemma {:induction false} ByAgePush(t: seq<Sess>, u: seq<Sess>, k: nat, log: seq<Sent>, r: Sent)
    requires ByAge(t, log) && Rotated(t, u, k) && u[|u| - 1].id == r.session
    requires forall j :: 0 <= j < |t| && j != k ==> t[j].id != r.session
    ensures ByAge(u, log + [r])
  {
    hide LastAt, Highest;
    forall i, j | 0 <= i < j < |u|
      ensures LastAt(log + [r], u[i].id) < LastAt(log + [r], u[j].id)
    {
      PushLast(log, r, u[i].id);
      PushLast(log, r, u[j].id);
    }
  }

  lemma {:induction false} LeftOutPush(t: seq<Sess>, u: seq<Sess>, k: nat, log: seq<Sent>, r: Sent)
    requires LeftOutOlder(t, log) && ByAge(t, log) && Rotated(t, u, k) && u[|u| - 1].id == r.session
    requires if k < |t| then t[k].id == r.session || (k == 0 && |t| == SESSION_MAX) else |t| < SESSION_MAX
    requires forall j :: 0 <= j < |t| && j != k ==> t[j].id != r.session
    ensures LeftOutOlder(u, log + [r])
  {
    hide LastAt, Highest, SESSION_MAX, LeftOutOlder;
    forall id: nat | id != 0 && LastAt(log + [r], id) >= 0 && Find(u, id) == |u|
      ensures |u| == SESSION_MAX && LastAt(log + [r], id) < LastAt(log + [r], u[0].id)
    {
      StillOut(t, u, k, log, r, id);
    }
    OutOlder(u, log + [r]);
  }

  lemma OutOlder(t: seq<Sess>, log: seq<Sent>)
    requires forall id: nat :: id != 0 && LastAt(log, id) >= 0 && Find(t, id) == |t| ==>
      |t| == SESSION_MAX && LastAt(log, id) < LastAt(log, t[0].id)
    ensures LeftOutOlder(t, log)
  {}

  lemma {:induction false} StillOut(t: seq<Sess>, u: seq<Sess>, k: nat, log: seq<Sent>, r: Sent, id: nat)
    requires LeftOutOlder(t, log) && ByAge(t, log) && Rotated(t, u, k) && u[|u| - 1].id == r.session
    requires if k < |t| then t[k].id == r.session || (k == 0 && |t| == SESSION_MAX) else |t| < SESSION_MAX
    requires forall j :: 0 <= j < |t| && j != k ==> t[j].id != r.session
    requires id != 0 && LastAt(log + [r], id) >= 0 && Find(u, id) == |u|
    ensures |u| == SESSION_MAX && LastAt(log + [r], id) < LastAt(log + [r], u[0].id)
  {
    hide LastAt, Highest, Find;
    PushLast(log, r, id);
    PushLast(log, r, u[0].id);
    Absent(u, id, |u| - 1);
    var i := Find(t, id);
    if i < |t| {
      OnlyDropped(t, u, k, id);
      assert i == k == 0;
      if |u| > 1 { assert u[0] == t[1]; }
    } else {
      assert LastAt(log, id) < LastAt(log, t[0].id);
      if |u| > 1 { assert u[0] == t[0] || u[0] == t[1]; }
    }
  }

  lemma OnlyDropped(t: seq<Sess>, u: seq<Sess>, k: nat, id: nat)
    requires Rotated(t, u, k) && Find(u, id) == |u|
    ensures forall i :: 0 <= i < |t| && i != k ==> t[i].id != id
  {
    hide Find;
    assert forall i :: 0 <= i < |t| && i != k ==> t[i] == u[if i < k then i else i - 1];
  }

  lemma Absent(t: seq<Sess>, id: nat, j: nat)
    requires j < |t| && Find(t, id) == |t|
    ensures t[j].id != id
  {}

  /** A record moves its session to the end, taking a place when it had none. */
  lemma {:induction false} SeenNext(t: seq<Sess>, log: seq<Sent>, r: Sent)
    requires MostRecent(t, log) && r.session != 0 && Increasing(log + [r])
    ensures MostRecent(Observed(t, r.session, r.clientSeq), log + [r])
  {
    hide LastAt, Highest, Increasing, Held, ByAge, LeftOutOlder;
    var id, f, u := r.session, Find(t, r.session), Observed(t, r.session, r.clientSeq);
    var k := if f < |t| then f else if |t| == SESSION_MAX then 0 else |t|;
    OthersDiffer(t, log, r, k);
    EndMark(t, log, r);
    assert Rotated(t, u, k);
    HeldPush(t, u, k, log, r);
    ByAgePush(t, u, k, log, r);
    LeftOutPush(t, u, k, log, r);
  }

  lemma {:induction false} OthersDiffer(t: seq<Sess>, log: seq<Sent>, r: Sent, k: nat)
    requires ByAge(t, log) && (Find(t, r.session) == |t| || k == Find(t, r.session))
    ensures forall j :: 0 <= j < |t| && j != k ==> t[j].id != r.session
  {
    hide LastAt;
  }

  lemma {:induction false} EndMark(t: seq<Sess>, log: seq<Sent>, r: Sent)
    requires Held(t, log) && r.session != 0 && Increasing(log + [r])
    ensures var u := Observed(t, r.session, r.clientSeq);
      |u| > 0 && u[|u| - 1] == Sess(r.session, Highest(log + [r], r.session))
  {
    PushLast(log, r, r.session);
    HighestIsLast(log + [r], r.session);
    hide Highest, LastAt;
  }

  lemma {:induction false} FoldIs(log: seq<Sent>)
    requires Increasing(log)
    ensures MostRecent(Fold(log), log)
  {
    hide MostRecent, Observed;
    if log == [] {
      NoneRecent(log);
    } else {
      var init, r := log[..|log| - 1], log[|log| - 1];
      assert init + [r] == log;
      FoldIs(init);
      if r.session == 0 {
        SeenNobody(Fold(init), init, r);
      } else {
        SeenNext(Fold(init), init, r);
      }
    }
  }

  lemma NoneRecent(log: seq<Sent>)
    requires log == []
    ensures MostRecent(Fold(log), log)
  {}

  lemma {:induction false} SeenNobody(t: seq<Sess>, log: seq<Sent>, r: Sent)
    requires MostRecent(t, log) && r.session == 0
    ensures MostRecent(Observed(t, 0, r.clientSeq), log + [r])
  {
    forall x: nat
      ensures LastAt(log + [r], x) == if x == 0 then |log| else LastAt(log, x)
      ensures x != 0 ==> Highest(log + [r], x) == Highest(log, x)
    {
      PushLast(log, r, x);
    }
  }

  lemma FoldPush(log: seq<Sent>, n: nat)
    requires n < |log|
    ensures Fold(log[..n + 1]) == Observed(Fold(log[..n]), log[n].session, log[n].clientSeq)
  {
    assert log[..n + 1][..n] == log[..n];
  }

  /** The table built by walking a log forward. */
  method Rebuild(log: seq<Sent>) returns (t: Table)
    ensures fresh(t) && fresh(t.entries) && t.Valid() && t.List() == Fold(log)
  {
    hide Observed, Sorted, Named, ListOf, Fold;
    t := new Table();
    var n := 0;
    NoneFolded(log[..0]);
    while n < |log|
      invariant n <= |log| && fresh(t) && fresh(t.entries)
      invariant t.Valid() && t.List() == Fold(log[..n])
    {
      FoldPush(log, n);
      t.Observe(log[n].session, log[n].clientSeq);
      n := n + 1;
    }
    assert log[..n] == log;
  }

  lemma NoneFolded(log: seq<Sent>)
    requires log == []
    ensures Fold(log) == []
  {}
}
