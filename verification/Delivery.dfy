/**
 Whole reads and whole subscriptions: where each starts and stops, and that
 what it is sent in between is exactly what the log holds of what it asked for.
 */
module Delivery {
  import opened Bytes
  import opened Record
  import opened Wrappers
  import opened Store
  import opened Recovery
  import opened Wal
  import opened Cursor
  import opened Readers
  import KeyIndex

  // ---- what a story of reads tells ----

  /** The records sent, pass by pass, while the log goes on. */
  ghost function Told(q: Want, w: Log, next: nat, es: seq<Event>): seq<seq<byte>>
    requires Story(w, next, es)
    decreases |es|
  {
    if es == [] then []
    else
      (if es[0].Take? then Pick(q, Slice(w, next, es[0].upto)) else [])
      + Told(q, LogAfter(w, es[0]), NextAfter(next, es[0]), es[1..])
  }

  lemma PickSlices(q: Want, w: Log, a: nat, b: nat, c: nat)
    requires w.segs != [] && Origin(w) <= a <= b <= c <= End(w)
    ensures Pick(q, Slice(w, a, c)) == Pick(q, Slice(w, a, b)) + Pick(q, Slice(w, b, c))
  {
    hide Flat, Pick;
    assert Slice(w, a, c) == Slice(w, a, b) + Slice(w, b, c);
    PickJoin(q, Slice(w, a, b), Slice(w, b, c));
  }

  /** Nothing between the passes is missed and nothing is told twice. */
  lemma {:induction false} ToldIs(q: Want, w: Log, next: nat, es: seq<Event>)
    requires Good(w) && TailClean(w) && w.segs != [] && Origin(w) <= next <= End(w) && Story(w, next, es)
    ensures var v, n := FinalLog(w, next, es), FinalNext(next, es);
      && v.segs != [] && Origin(v) == Origin(w) <= next <= n <= End(v) && End(w) <= End(v)
      && Told(q, w, next, es) == Pick(q, Slice(v, next, n))
    decreases |es|
  {
    hide Good, TailClean, Flat, Slice, Step, Allowed, Yields, Pick;
    if es == [] {
      PickEmpty(q, w, next);
    } else {
      var e := es[0];
      EventKeeps(w, next, e);
      var w1, n1 := LogAfter(w, e), NextAfter(next, e);
      ToldIs(q, w1, n1, es[1..]);
      SliceStableRun(w1, n1, es[1..], next, n1);
      var v, n := FinalLog(w1, n1, es[1..]), FinalNext(n1, es[1..]);
      PickSlices(q, v, next, n1, n);
      if e.Do? {
        EventGrows(w, next, e);
        PickEmpty(q, v, next);
      }
    }
  }

  lemma PickEmpty(q: Want, w: Log, n: nat)
    ensures Pick(q, Slice(w, n, n)) == []
  {
    assert Slice(w, n, n) == [];
  }

  lemma EventGrows(w: Log, next: nat, e: Event)
    requires Good(w) && TailClean(w) && w.segs != [] && Origin(w) <= next <= End(w) && Happens(w, next, e)
    ensures var v := LogAfter(w, e);
      v.segs != [] && Origin(v) == Origin(w) && End(w) <= End(v)
  {
    hide Good, TailClean, Flat, Slice, Step, Allowed, Yields;
    if e.Do? {
      SliceStable(w, e.op, next, next);
    }
  }

  // ---- limits ----

  /** A pass reads what is flushed, and no further than where the read ends. */
  ghost predicate Paced(w: Log, next: nat, es: seq<Event>, until: Option<int>)
    requires Story(w, next, es)
    decreases |es|
  {
    es == [] ||
    (&& (es[0].Take? ==> es[0].limit as int <= w.durable)
     && (es[0].Take? && until.Some? ==> next <= until.value && es[0].limit as int <= until.value)
     && Paced(LogAfter(w, es[0]), NextAfter(next, es[0]), es[1..], until))
  }

  lemma {:induction false} NotPast(w: Log, next: nat, es: seq<Event>, until: Option<int>)
    requires Good(w) && TailClean(w) && w.segs != [] && Origin(w) <= next <= End(w)
    requires Story(w, next, es) && Paced(w, next, es, until)
    ensures var v, n := FinalLog(w, next, es), FinalNext(next, es);
      && w.durable <= v.durable
      && (n == next || n <= v.durable + 1)
      && (until.Some? ==> n == next || n <= until.value + 1)
    decreases |es|
  {
    hide Good, TailClean, Flat, Slice, Step, Allowed;
    if es != [] {
      EventKeeps(w, next, es[0]);
      DurableRises(w, next, es[0]);
      NotPast(LogAfter(w, es[0]), NextAfter(next, es[0]), es[1..], until);
    }
  }

  lemma DurableRises(w: Log, next: nat, e: Event)
    requires Good(w) && TailClean(w) && Happens(w, next, e)
    ensures w.durable <= LogAfter(w, e).durable
  {
    hide Good, TailClean, Flat, Step, Allowed, Yields;
    if e.Do? {
      StepGood(w, e.op);
    }
  }

  // ---- what the index may say ----

  /** What a node's key index answers about its log. */
  ghost predicate IndexSays(w: Log, key: u64, from: nat, range: Option<(nat, nat)>, complete: bool)
    requires Headed(Flat(w.segs))
  {
    var log := Heads(Flat(w.segs));
    && (range.Some? ==>
          && KeyIndex.FirstOf(log, key).Some? && KeyIndex.LastOf(log, key).Some?
          && range.value.1 == KeyIndex.LastOf(log, key).value
          && var first := KeyIndex.FirstOf(log, key).value;
             range.value.0 == if from < first then first else from)
    && (range.None? && complete ==> KeyIndex.CountOf(log, key) == 0)
  }

  /** No record of the key has a sequence in [a, b). */
  ghost predicate NoneOf(w: Log, key: u64, a: nat, b: nat) {
    forall n :: a <= n < b && |Entry(w, n)| >= HEADER ==> Decode(Entry(w, n)).key != key
  }

  lemma HeadsInOrder(w: Log)
    requires Placed(w)
    ensures w.segs != [] && Headed(Flat(w.segs)) && KeyIndex.InOrder(Heads(Flat(w.segs)))
    ensures forall i :: 0 <= i < |Flat(w.segs)| ==>
      Heads(Flat(w.segs))[i] == Decode(Flat(w.segs)[i]) && Decode(Flat(w.segs)[i]).seqno == Origin(w) + i
  {
    hide Chain, Flat, Concat, Verify, Decode;
    FlatDense(w.segs, w.cap);
    OriginPositive(w);
    assert forall i :: 0 <= i < |Flat(w.segs)| ==> IsRecordAt(Flat(w.segs)[i], Origin(w) + i);
  }

  lemma OriginPositive(w: Log)
    requires Placed(w)
    ensures w.segs != [] && 0 < Origin(w)
  {
    hide Concat, Flat;
    assert SegOk(w.segs[0], w.cap);
  }

  /** Outside its first and last sequence there is nothing of a key. */
  lemma KeyLives(w: Log, key: u64)
    requires Placed(w) && Headed(Flat(w.segs))
    ensures var log := Heads(Flat(w.segs));
      && (KeyIndex.CountOf(log, key) == 0 ==> NoneOf(w, key, Origin(w), End(w)))
      && (KeyIndex.FirstOf(log, key).Some? && KeyIndex.LastOf(log, key).Some? ==>
            && NoneOf(w, key, Origin(w), KeyIndex.FirstOf(log, key).value)
            && NoneOf(w, key, KeyIndex.LastOf(log, key).value + 1, End(w))
            && Origin(w) <= KeyIndex.FirstOf(log, key).value < End(w))
  {
    hide Placed, Flat, Decode, KeyIndex.CountOf, KeyIndex.FirstOf, KeyIndex.LastOf, Heads;
    HeadsInOrder(w);
    var log := Heads(Flat(w.segs));
    KeyIndex.FirstLastExist(log, key);
    if KeyIndex.CountOf(log, key) > 0 {
      KeyIndex.Between(log, key);
      var i :| 0 <= i < |log| && log[i].key == key && log[i].seqno == KeyIndex.FirstOf(log, key).value;
      assert log[i].seqno == Origin(w) + i;
      forall n | Origin(w) <= n < End(w) && |Entry(w, n)| >= HEADER && Decode(Entry(w, n)).key == key
        ensures KeyIndex.FirstOf(log, key).value <= n <= KeyIndex.LastOf(log, key).value
      {
        assert log[n - Origin(w)].key == key && log[n - Origin(w)].seqno == n;
      }
    } else {
      forall n | Origin(w) <= n < End(w) && |Entry(w, n)| >= HEADER
        ensures Decode(Entry(w, n)).key != key
      {
        assert log[n - Origin(w)].key != key;
      }
    }
  }

  lemma PickNothing(q: Want, w: Log, a: nat, b: nat)
    requires !q.all && NoneOf(w, q.key, a, b) && w.segs != [] && Origin(w) <= a <= b <= End(w)
    ensures Pick(q, Slice(w, a, b)) == []
  {
    hide Flat, Decode, Pick;
    var s := Slice(w, a, b);
    forall i | 0 <= i < |s|
      ensures !Wants(q, s[i])
    {
      assert s[i] == Entry(w, a + i);
    }
    PickNone(q, s);
  }

  // ---- a read ----

  /** Where a read starts and stops; it may have nothing to read at all. */
  datatype Plan = Walk(from: nat, until: int) | Nothing

  function PlanRead(q: Want, first: nat, durable: int, range: Option<(nat, nat)>, complete: bool): Plan {
    if q.all then Walk(first, durable)
    else if range.Some? then Walk(range.value.0, if range.value.1 < durable then range.value.1 else durable)
    else if complete then Nothing
    else Walk(first, durable)
  }

  /** The records asked for that were there, and flushed, when the read came. */
  ghost function Answer(q: Want, w: Log): seq<seq<byte>>
    requires w.gone < |w.segs|
  {
    if FirstSeq(w) <= w.durable + 1 then Pick(q, Slice(w, FirstSeq(w), w.durable + 1)) else []
  }

  lemma Bounds(w: Log)
    requires Placed(w)
    ensures w.segs != [] && Origin(w) <= FirstSeq(w) <= w.durable + 1 <= End(w) == Next(w)
  {
    hide Chain, Concat, Flat;
    EndIsNext(w);
    if w.gone > 0 { BasesAscend(w.segs, w.cap, 0, w.gone); }
    if w.gone < |w.segs| - 1 { BasesAscend(w.segs, w.cap, w.gone, |w.segs| - 1); }
  }

  lemma EndIsNext(w: Log)
    requires Placed(w)
    ensures w.segs != [] && End(w) == Next(w)
  {
    hide Chain, Concat, Flat;
    var n := |w.segs| - 1;
    BaseCounts(w.segs, w.cap, n);
    assert w.segs == w.segs[..n] + [w.segs[n]];
    FlatConcat(w.segs[..n], [w.segs[n]]);
    FlatOne(w.segs[n]);
  }

  /** A read is never refused: wherever the index points it, the log holds that sequence or is about to. */
  lemma ReadPlaced(w: Log, q: Want, range: Option<(nat, nat)>, complete: bool)
    requires Placed(w) && Headed(Flat(w.segs)) && IndexSays(w, q.key, FirstSeq(w), range, complete)
    ensures var p := PlanRead(q, FirstSeq(w), w.durable, range, complete);
      p.Walk? ==> FirstSeq(w) <= p.from <= Next(w)
  {
    Bounds(w);
    var a, b := RangeFacts(w, q.key, FirstSeq(w), range, complete);
    hide Placed, Flat;
  }

  lemma UntilWithin(w: Log, q: Want, range: Option<(nat, nat)>, complete: bool)
    requires Placed(w)
    ensures w.segs != []
    ensures var p := PlanRead(q, FirstSeq(w), w.durable, range, complete);
      p.Walk? ==> p.until <= w.durable < End(w)
  {
    hide Chain, Flat, Concat;
    Bounds(w);
  }

  /** What the index's answer says about where records of the key are not. */
  lemma RangeFacts(w: Log, key: u64, from: nat, range: Option<(nat, nat)>, complete: bool) returns (a: nat, b: nat)
    requires Placed(w) && Headed(Flat(w.segs)) && IndexSays(w, key, from, range, complete)
    ensures range.Some? ==> range.value == (if from < a then a else from, b) && Origin(w) <= a < End(w)
    ensures range.Some? ==> NoneOf(w, key, Origin(w), a) && NoneOf(w, key, b + 1, End(w))
    ensures range.None? && complete ==> NoneOf(w, key, Origin(w), End(w))
  {
    hide Placed, Flat, NoneOf, Heads, Headed, KeyIndex.FirstOf, KeyIndex.LastOf, KeyIndex.CountOf, End;
    KeyLives(w, key);
    var log := Heads(Flat(w.segs));
    a, b := 0, 0;
    if range.Some? {
      a, b := KeyIndex.FirstOf(log, key).value, KeyIndex.LastOf(log, key).value;
    }
  }

  /** The log has a record of this key with this sequence. */
  ghost predicate OfKey(w: Log, key: u64, n: int) {
    0 <= n && |Entry(w, n)| >= HEADER && Decode(Entry(w, n)).key == key
  }

  lemma HeadOfKey(w: Log, key: u64, i: nat)
    requires Placed(w) && i < |Flat(w.segs)|
    ensures Headed(Flat(w.segs)) && w.segs != []
    ensures var h := Heads(Flat(w.segs))[i];
      h.seqno == Origin(w) + i && (OfKey(w, key, h.seqno) <==> h.key == key)
  {
    hide Placed, Flat, Decode;
    HeadsInOrder(w);
    assert Entry(w, Origin(w) + i) == Flat(w.segs)[i];
  }

  /** The first and the last record of a key are records of the key, and the others lie between. */
  lemma KeyEnds(w: Log, key: u64)
    requires Placed(w) && Headed(Flat(w.segs))
    ensures var log := Heads(Flat(w.segs));
      KeyIndex.FirstOf(log, key).Some? && KeyIndex.LastOf(log, key).Some? ==>
        && OfKey(w, key, KeyIndex.FirstOf(log, key).value) && OfKey(w, key, KeyIndex.LastOf(log, key).value)
        && forall n :: Origin(w) <= n < End(w) && OfKey(w, key, n) ==>
             KeyIndex.FirstOf(log, key).value <= n <= KeyIndex.LastOf(log, key).value
  {
    hide Placed, Flat, OfKey, Headed, KeyIndex.CountOf, KeyIndex.FirstOf, KeyIndex.LastOf, Heads, KeyIndex.InOrder;
    OnlyInOrder(w);
    var log := Heads(Flat(w.segs));
    KeyIndex.FirstLastExist(log, key);
    if KeyIndex.CountOf(log, key) > 0 {
      KeyIndex.Between(log, key);
      HasOfKey(w, key, KeyIndex.FirstOf(log, key).value);
      HasOfKey(w, key, KeyIndex.LastOf(log, key).value);
      forall n | Origin(w) <= n < End(w) && OfKey(w, key, n)
        ensures KeyIndex.FirstOf(log, key).value <= n <= KeyIndex.LastOf(log, key).value
      {
        HeadOfKey(w, key, n - Origin(w));
      }
    }
  }

  lemma OnlyInOrder(w: Log)
    requires Placed(w) && Headed(Flat(w.segs))
    ensures w.segs != [] && KeyIndex.InOrder(Heads(Flat(w.segs)))
  {
    HeadsInOrder(w);
  }

  lemma HasOfKey(w: Log, key: u64, n: nat)
    requires Placed(w) && Headed(Flat(w.segs))
    requires var log := Heads(Flat(w.segs)); exists i :: 0 <= i < |log| && log[i].key == key && log[i].seqno == n
    ensures OfKey(w, key, n)
  {
    hide Placed, Flat, OfKey, Headed, Heads;
    var log := Heads(Flat(w.segs));
    var i :| 0 <= i < |log| && log[i].key == key && log[i].seqno == n;
    HeadOfKey(w, key, i);
  }

  lemma KeyEndsAt(w: Log, key: u64, from: nat, range: Option<(nat, nat)>, complete: bool) returns (a: nat, b: nat)
    requires Placed(w) && Headed(Flat(w.segs)) && IndexSays(w, key, from, range, complete)
    ensures range.Some? ==>
      && range.value == (if from < a then a else from, b) && OfKey(w, key, a) && OfKey(w, key, b)
      && forall n :: Origin(w) <= n < End(w) && OfKey(w, key, n) ==> a <= n <= b
  {
    hide Placed, Flat, OfKey, Heads, Headed, KeyIndex.FirstOf, KeyIndex.LastOf, KeyIndex.CountOf, End;
    KeyEnds(w, key);
    var log := Heads(Flat(w.segs));
    a, b := 0, 0;
    if range.Some? {
      a, b := KeyIndex.FirstOf(log, key).value, KeyIndex.LastOf(log, key).value;
    }
  }

  /**
   Where a read starts and ends. It walks all that is held and flushed, unless
   the index knows better; then it starts at the key's first record or at the
   first sequence held, ends at the key's last record or at what is flushed, and
   has each flushed record of the key that is held in between.
   */
  lemma PlanIs(w: Log, q: Want, range: Option<(nat, nat)>, complete: bool)
    requires Placed(w) && Headed(Flat(w.segs)) && IndexSays(w, q.key, FirstSeq(w), range, complete)
    ensures var p := PlanRead(q, FirstSeq(w), w.durable, range, complete);
      && (p.Nothing? <==> !q.all && range.None? && complete)
      && (p.Walk? && (q.all || range.None?) ==> p.from == FirstSeq(w) && p.until == w.durable)
      && (!q.all && range.Some? ==>
            && p.Walk? && FirstSeq(w) <= p.from && p.until <= w.durable
            && (p.from == FirstSeq(w) || OfKey(w, q.key, p.from))
            && (p.until == w.durable || OfKey(w, q.key, p.until))
            && forall n: nat :: FirstSeq(w) <= n <= w.durable && OfKey(w, q.key, n) ==> p.from <= n <= p.until)
  {
    hide Chain, Flat, OfKey, Headed, IndexSays, End;
    Bounds(w);
    var a, b := KeyEndsAt(w, q.key, FirstSeq(w), range, complete);
  }

  /** The index narrows the walk and leaves out nothing of the answer. */
  lemma PlanLosesNothing(w: Log, q: Want, range: Option<(nat, nat)>, complete: bool)
    requires Placed(w) && Headed(Flat(w.segs)) && IndexSays(w, q.key, FirstSeq(w), range, complete)
    ensures var p := PlanRead(q, FirstSeq(w), w.durable, range, complete);
      && (p.Nothing? ==> Answer(q, w) == [])
      && (p.Walk? && p.from <= p.until ==>
            p.until + 1 <= End(w) && Answer(q, w) == Pick(q, Slice(w, p.from, p.until + 1)))
      && (p.Walk? && p.until < p.from ==> Answer(q, w) == [])
  {
    hide Chain, Flat, Slice, Pick, NoneOf, End, IndexSays, Headed;
    Bounds(w);
    var a, b := RangeFacts(w, q.key, FirstSeq(w), range, complete);
    hide Placed;
    var first, last, p := FirstSeq(w), w.durable, PlanRead(q, FirstSeq(w), w.durable, range, complete);
    if q.all || (range.None? && !complete) {
      if last < first { PickEmpty(q, w, first); }
    } else if range.None? {
      NoneWithin(w, q.key, Origin(w), End(w), first, last + 1);
      PickNothing(q, w, first, last + 1);
    } else {
      Narrowed(w, q, a, b, first, last);
    }
  }

  /** Walking only from the key's first record to its last gives all there is of it. */
  lemma Narrowed(w: Log, q: Want, a: nat, b: nat, first: nat, last: int)
    requires !q.all && w.segs != [] && Origin(w) <= first <= last + 1 <= End(w)
    requires NoneOf(w, q.key, Origin(w), a) && NoneOf(w, q.key, b + 1, End(w)) && a < End(w)
    ensures var from, until := if first < a then a else first, if b < last then b else last;
      var all := Pick(q, Slice(w, first, last + 1));
      && (from <= until ==> all == Pick(q, Slice(w, from, until + 1)))
      && (until < from ==> all == [])
  {
    hide Slice, Pick, NoneOf, End;
    var from, until := if first < a then a else first, if b < last then b else last;
    if until < from {
      NoneAcross(w, q.key, a, b, first, last + 1);
      PickNothing(q, w, first, last + 1);
    } else {
      NoneWithin(w, q.key, Origin(w), a, first, from);
      PickNothing(q, w, first, from);
      NoneWithin(w, q.key, b + 1, End(w), until + 1, last + 1);
      PickNothing(q, w, until + 1, last + 1);
      PickSlices(q, w, first, from, last + 1);
      PickSlices(q, w, from, until + 1, last + 1);
      var mid := Pick(q, Slice(w, from, until + 1));
      assert [] + (mid + []) == mid;
    }
  }

  lemma NoneWithin(w: Log, key: u64, a: nat, b: nat, c: nat, d: nat)
    requires NoneOf(w, key, a, b) && (c < d ==> a <= c && d <= b)
    ensures NoneOf(w, key, c, d)
  {}

  lemma NoneAcross(w: Log, key: u64, a: nat, b: nat, c: nat, d: nat)
    requires w.segs != [] && Origin(w) <= c <= d <= End(w)
    requires NoneOf(w, key, Origin(w), a) && NoneOf(w, key, b + 1, End(w)) && (d <= a || b < c || b < a || c == d)
    ensures NoneOf(w, key, c, d)
  {
    hide Entry, Decode, End;
  }

  /** Whatever its start and its end: once past the end, a walk has been told what was asked for in between. */
  lemma WalkTold(w: Log, q: Want, from: nat, until: int, es: seq<Event>)
    requires Good(w) && TailClean(w) && w.segs != [] && Origin(w) <= from <= End(w) && until < End(w)
    requires Story(w, from, es) && Paced(w, from, es, Some(until)) && FinalNext(from, es) > until
    ensures Told(q, w, from, es) == if from <= until then Pick(q, Slice(w, from, until + 1)) else []
  {
    hide Good, TailClean, Flat, Slice, Pick, Paced, Story, FinalLog, FinalNext, Told, End;
    ToldIs(q, w, from, es);
    NotPast(w, from, es, Some(until));
    if from <= until {
      SliceStableRun(w, from, es, from, until + 1);
    } else {
      PickEmpty(q, FinalLog(w, from, es), from);
    }
  }

  /**
   Once its cursor has passed the end, a read has been told exactly the records
   it asked for that were on disk and flushed when it came, each once and in
   order, whichever of its three answers the index gave.
   */
  lemma ReadTold(w: Log, q: Want, range: Option<(nat, nat)>, complete: bool, es: seq<Event>)
    requires Good(w) && TailClean(w) && Headed(Flat(w.segs)) && IndexSays(w, q.key, FirstSeq(w), range, complete)
    requires var p := PlanRead(q, FirstSeq(w), w.durable, range, complete);
      p.Walk? ==> Story(w, p.from, es) && Paced(w, p.from, es, Some(p.until)) && FinalNext(p.from, es) > p.until
    ensures var p := PlanRead(q, FirstSeq(w), w.durable, range, complete);
      if p.Walk? then Told(q, w, p.from, es) == Answer(q, w) else Answer(q, w) == []
  {
    hide Chain, AllEndClean, TailClean, Flat, Slice, Pick, Answer, IndexSays, Paced, Story, FinalLog, FinalNext, Told,
      PlanRead, Headed;
    PlanLosesNothing(w, q, range, complete);
    ReadPlaced(w, q, range, complete);
    Bounds(w);
    hide Placed, End;
    var p := PlanRead(q, FirstSeq(w), w.durable, range, complete);
    if p.Walk? {
      assert p.until < End(w) by { UntilWithin(w, q, range, complete); }
      WalkTold(w, q, p.from, p.until, es);
    }
  }

  /** The records asked for from `first` on, up to d. */
  ghost function Asked(q: Want, w: Log, first: nat, d: int): seq<seq<byte>> {
    if first <= d then Pick(q, Slice(w, first, d + 1)) else []
  }

  lemma {:induction false} RunSlices(w: Log, ops: seq<Op>, a: nat, b: nat)
    requires Good(w) && TailClean(w) && w.segs != [] && Origin(w) <= a <= b <= End(w) && RunAllowed(w, ops)
    ensures var v := RunOps(w, ops);
      v.segs != [] && Origin(v) == Origin(w) && End(w) <= End(v) && Slice(v, a, b) == Slice(w, a, b)
    decreases |ops|
  {
    hide Good, TailClean, Flat, Slice, Step, Allowed, End;
    if ops != [] {
      StepGood(w, ops[0]);
      SliceStable(w, ops[0], a, b);
      RunSlices(Step(w, ops[0]), ops[1..], a, b);
    }
  }

  lemma SkipTo(v: Log, q: Want, first: nat, from: nat, d: nat)
    requires v.segs != [] && Origin(v) <= first <= from <= End(v) && d < End(v)
    requires Pick(q, Slice(v, first, from)) == []
    ensures Asked(q, v, first, d) == Asked(q, v, from, d)
  {
    hide Flat, Slice, Pick, End;
    if from <= d {
      PickSlices(q, v, first, from, d + 1);
    } else if first <= d {
      PickSlices(q, v, first, d + 1, from);
    }
  }

  /** What there is between the first sequence held and where the index starts a read is not of the key. */
  lemma NothingBefore(w: Log, q: Want, range: Option<(nat, nat)>, complete: bool)
    requires Placed(w) && Headed(Flat(w.segs)) && IndexSays(w, q.key, FirstSeq(w), range, complete)
    ensures var p := PlanRead(q, FirstSeq(w), w.durable, range, complete);
      p.Walk? ==> w.segs != [] && Origin(w) <= FirstSeq(w) <= p.from <= End(w)
                  && Pick(q, Slice(w, FirstSeq(w), p.from)) == []
  {
    Bounds(w);
    var a, b := RangeFacts(w, q.key, FirstSeq(w), range, complete);
    hide Placed, Flat, Headed, IndexSays, Slice, Pick, NoneOf, End;
    var p, first := PlanRead(q, FirstSeq(w), w.durable, range, complete), FirstSeq(w);
    PickEmpty(q, w, first);
    if p.Walk? && first < p.from {
      NoneWithin(w, q.key, Origin(w), a, first, p.from);
      PickNothing(q, w, first, p.from);
    }
  }

  /**
   Where the index put a read when it came still leaves nothing out however the
   log has grown since: all there is of the key up to any later end is from
   there on.
   */
  lemma LaterAsked(w: Log, q: Want, range: Option<(nat, nat)>, complete: bool, ops: seq<Op>, d: nat)
    requires Good(w) && TailClean(w) && Headed(Flat(w.segs)) && IndexSays(w, q.key, FirstSeq(w), range, complete)
    requires PlanRead(q, FirstSeq(w), w.durable, range, complete).Walk?
    requires RunAllowed(w, ops) && d as int <= RunOps(w, ops).durable
    ensures var p, v := PlanRead(q, FirstSeq(w), w.durable, range, complete), RunOps(w, ops);
      && v.segs != [] && Origin(w) == Origin(v) <= p.from <= End(v) && d < End(v)
      && Asked(q, v, FirstSeq(w), d) == Asked(q, v, p.from, d)
  {
    NothingBefore(w, q, range, complete);
    RunGood(w, ops);
    var p, v, first := PlanRead(q, FirstSeq(w), w.durable, range, complete), RunOps(w, ops), FirstSeq(w);
    RunSlices(w, ops, first, p.from);
    hide IndexSays, Headed, RunOps, RunAllowed, Slice, Pick, PlanRead, Chain, AllEndClean, TailClean, Flat;
    Bounds(v);
    hide Good;
    SkipTo(v, q, first, p.from, d);
  }

  // ---- a subscription ----

  /** Where following starts: the request's place, or the key's first record when that is later. */
  function PlanSubscribe(q: Want, from: nat, range: Option<(nat, nat)>): nat {
    if !q.all && range.Some? then range.value.0 else from
  }

  /**
   A subscription starts where it asks, unless the index knows that the key's
   first record comes later; then it starts there.
   */
  lemma PlanSubscribeIs(w: Log, q: Want, from: nat, range: Option<(nat, nat)>, complete: bool)
    requires Placed(w) && Headed(Flat(w.segs)) && IndexSays(w, q.key, from, range, complete)
    ensures var start := PlanSubscribe(q, from, range);
      && from <= start
      && (q.all || range.None? ==> start == from)
      && (!q.all && range.Some? && from < start ==>
            && OfKey(w, q.key, start)
            && forall n :: Origin(w) <= n < End(w) && OfKey(w, q.key, n) ==> start <= n)
      && (!q.all && range.Some? && from == start ==> exists n: nat :: n <= from && OfKey(w, q.key, n))
  {
    hide Chain, Flat, OfKey, Headed, IndexSays, End;
    var a, b := KeyEndsAt(w, q.key, from, range, complete);
  }

  /**
   What a subscriber has been sent at any moment is exactly the records it asked
   for from its place up to the cursor, and every one of them was flushed.
   */
  lemma SubscriptionExact(w: Log, q: Want, from: nat, range: Option<(nat, nat)>, complete: bool, es: seq<Event>)
    requires Good(w) && TailClean(w) && Headed(Flat(w.segs)) && IndexSays(w, q.key, from, range, complete)
    requires var start := PlanSubscribe(q, from, range);
      FirstSeq(w) <= start <= Next(w) && Story(w, start, es) && Paced(w, start, es, None)
    ensures var start := PlanSubscribe(q, from, range);
      var v, n := FinalLog(w, start, es), FinalNext(start, es);
      && v.segs != [] && (n == start || n <= v.durable + 1)
      && var first := if from < Origin(v) then Origin(v) else from;
         Told(q, w, start, es) == Pick(q, Slice(v, first, n))
  {
    hide Chain, AllEndClean, TailClean, Flat, Slice, Pick, NoneOf, Paced, Story, Headed, IndexSays, FinalLog, FinalNext,
      Told;
    Bounds(w);
    var a, _ := RangeFacts(w, q.key, from, range, complete);
    hide Placed, End;
    var start := PlanSubscribe(q, from, range);
    ToldIs(q, w, start, es);
    NotPast(w, start, es, None);
    var v, n := FinalLog(w, start, es), FinalNext(start, es);
    var first := if from < Origin(v) then Origin(v) else from;
    if first < start {
      NoneWithin(w, q.key, Origin(w), a, first, start);
      PickNothing(q, w, first, start);
      SliceStableRun(w, start, es, first, start);
      PickSlices(q, v, first, start, n);
    }
  }
}
