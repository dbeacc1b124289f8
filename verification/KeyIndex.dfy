/**
 The key index: a bounded table of each key's first and last sequence in the
 log, which may save a reader a walk and must never cost it a record.
 */
module KeyIndex {
  import opened Bytes
  import opened Record
  import opened Wrappers

  const INDEX_KEYS := 1024

  // ---- what the log itself says ----

  function CountOf(log: seq<Rec>, key: u64): nat {
    if log == [] then 0
    else CountOf(log[..|log| - 1], key) + if log[|log| - 1].key == key then 1 else 0
  }

  function FirstOf(log: seq<Rec>, key: u64): Option<nat> {
    if log == [] then None
    else
      var before := FirstOf(log[..|log| - 1], key);
      if before.None? && log[|log| - 1].key == key then Some(log[|log| - 1].seqno) else before
  }

  function LastOf(log: seq<Rec>, key: u64): Option<nat> {
    if log == [] then None
    else if log[|log| - 1].key == key then Some(log[|log| - 1].seqno)
    else LastOf(log[..|log| - 1], key)
  }

  /** Records of keys outside a set. */
  function CountOutside(log: seq<Rec>, keys: set<u64>): nat {
    if log == [] then 0
    else CountOutside(log[..|log| - 1], keys) + if log[|log| - 1].key in keys then 0 else 1
  }

  /** Sequences ascend, as they do in any log. */
  ghost predicate InOrder(log: seq<Rec>) {
    && (forall i :: 0 <= i < |log| ==> 0 < log[i].seqno)
    && (forall i, j :: 0 <= i < j < |log| ==> log[i].seqno < log[j].seqno)
  }

  lemma {:induction false} FirstLastExist(log: seq<Rec>, key: u64)
    ensures FirstOf(log, key).Some? <==> CountOf(log, key) > 0
    ensures LastOf(log, key).Some? <==> CountOf(log, key) > 0
    ensures CountOf(log, key) == 0 <==> forall i :: 0 <= i < |log| ==> log[i].key != key
  {
    if log != [] {
      var n := |log| - 1;
      FirstLastExist(log[..n], key);
      assert forall i :: 0 <= i < n ==> log[..n][i] == log[i];
      if log[n].key != key && CountOf(log, key) > 0 {
        var i :| 0 <= i < n && log[..n][i].key == key;
        assert log[i].key == key;
      }
    }
  }

  /** No record of the key comes before its first. */
  lemma {:induction false} FirstIs(log: seq<Rec>, key: u64)
    requires InOrder(log) && FirstOf(log, key).Some?
    ensures forall i :: 0 <= i < |log| && log[i].key == key ==> FirstOf(log, key).value <= log[i].seqno
    ensures exists i :: 0 <= i < |log| && log[i].key == key && log[i].seqno == FirstOf(log, key).value
  {
    var n := |log| - 1;
    var init := log[..n];
    assert forall i :: 0 <= i < n ==> init[i] == log[i];
    if FirstOf(init, key).Some? {
      FirstIs(init, key);
      var a :| 0 <= a < |init| && init[a].key == key && init[a].seqno == FirstOf(init, key).value;
      assert log[a].key == key;
    } else {
      FirstLastExist(init, key);
      assert log[n].key == key;
    }
  }

  /** Nor after its last. */
  lemma {:induction false} LastIs(log: seq<Rec>, key: u64)
    requires InOrder(log) && LastOf(log, key).Some?
    ensures forall i :: 0 <= i < |log| && log[i].key == key ==> log[i].seqno <= LastOf(log, key).value
    ensures exists i :: 0 <= i < |log| && log[i].key == key && log[i].seqno == LastOf(log, key).value
  {
    var n := |log| - 1;
    var init := log[..n];
    assert forall i :: 0 <= i < n ==> init[i] == log[i];
    if log[n].key != key {
      LastIs(init, key);
      var b :| 0 <= b < |init| && init[b].key == key && init[b].seqno == LastOf(init, key).value;
      assert log[b].key == key;
    }
  }

  /** Every record of the key lies between its first and its last. */
  lemma Between(log: seq<Rec>, key: u64)
    requires InOrder(log) && CountOf(log, key) > 0
    ensures FirstOf(log, key).Some? && LastOf(log, key).Some?
    ensures forall i :: 0 <= i < |log| && log[i].key == key ==>
      FirstOf(log, key).value <= log[i].seqno <= LastOf(log, key).value
    ensures exists i :: 0 <= i < |log| && log[i].key == key && log[i].seqno == FirstOf(log, key).value
    ensures exists i :: 0 <= i < |log| && log[i].key == key && log[i].seqno == LastOf(log, key).value
  {
    hide CountOf, FirstOf, LastOf, InOrder;
    FirstLastExist(log, key);
    FirstIs(log, key);
    LastIs(log, key);
  }

  // ---- the table ----

  datatype Entry = Entry(key: u64, first: u64, last: u64, count: nat)

  function Keys(keys: seq<Entry>): set<u64> {
    set i | 0 <= i < |keys| :: keys[i].key
  }

  ghost predicate Describes(e: Entry, log: seq<Rec>) {
    && e.count == CountOf(log, e.key) && e.count > 0
    && FirstOf(log, e.key) == Some(e.first as nat) && LastOf(log, e.key) == Some(e.last as nat)
  }

  /** The table tells the truth about every key it holds, and a key of the log
      is missing from it only once it is full. */
  ghost predicate Accounts(keys: seq<Entry>, unknown: nat, log: seq<Rec>) {
    && |keys| <= INDEX_KEYS
    && (forall i, j :: 0 <= i < j < |keys| ==> keys[i].key != keys[j].key)
    && (forall i :: 0 <= i < |keys| ==> Describes(keys[i], log))
    && (|keys| < INDEX_KEYS ==> forall i :: 0 <= i < |log| ==> log[i].key in Keys(keys))
    && unknown == CountOutside(log, Keys(keys))
  }

  lemma KeysGrow(keys: seq<Entry>, e: Entry)
    ensures Keys(keys + [e]) == Keys(keys) + {e.key}
  {
    var t := keys + [e];
    assert t[|keys|] == e;
    assert forall i :: 0 <= i < |keys| ==> t[i] == keys[i];
  }

  lemma KeysSame(keys: seq<Entry>, at: nat, e: Entry)
    requires at < |keys| && e.key == keys[at].key
    ensures Keys(keys[at := e]) == Keys(keys)
  {
    assert forall i :: 0 <= i < |keys| ==> keys[at := e][i].key == keys[i].key;
  }

  /** What one more record does to each of the log's own answers. */
  lemma OneMore(log: seq<Rec>, r: Rec, key: u64)
    ensures var more := log + [r];
      && CountOf(more, key) == CountOf(log, key) + (if r.key == key then 1 else 0)
      && LastOf(more, key) == (if r.key == key then Some(r.seqno as nat) else LastOf(log, key))
      && FirstOf(more, key)
         == (if FirstOf(log, key).None? && r.key == key then Some(r.seqno as nat) else FirstOf(log, key))
  {
    assert (log + [r])[..|log|] == log;
  }

  lemma OneMoreOutside(log: seq<Rec>, r: Rec, keys: set<u64>)
    ensures CountOutside(log + [r], keys) == CountOutside(log, keys) + if r.key in keys then 0 else 1
  {
    assert (log + [r])[..|log|] == log;
  }

  lemma {:induction false} NoneOutside(log: seq<Rec>, keys: set<u64>)
    ensures CountOutside(log, keys) == 0 <==> forall i :: 0 <= i < |log| ==> log[i].key in keys
  {
    if log != [] {
      var n := |log| - 1;
      NoneOutside(log[..n], keys);
      assert forall i :: 0 <= i < n ==> log[..n][i] == log[i];
      if CountOutside(log, keys) != 0 && log[n].key in keys {
        var i :| 0 <= i < n && log[..n][i].key !in keys;
        assert log[i].key !in keys;
      }
    }
  }

  lemma AddFull(keys: seq<Entry>, unknown: nat, log: seq<Rec>, r: Rec)
    requires Accounts(keys, unknown, log) && |keys| == INDEX_KEYS && r.key !in Keys(keys)
    ensures Accounts(keys, unknown + 1, log + [r])
  {
    hide CountOf, FirstOf, LastOf, CountOutside;
    forall i | 0 <= i < |keys|
      ensures Describes(keys[i], log + [r])
    {
      assert Describes(keys[i], log);
      OneMore(log, r, keys[i].key);
      assert keys[i].key in Keys(keys);
    }
    OneMoreOutside(log, r, Keys(keys));
  }

  lemma AddNew(keys: seq<Entry>, unknown: nat, log: seq<Rec>, r: Rec)
    requires Accounts(keys, unknown, log) && |keys| < INDEX_KEYS && r.key !in Keys(keys)
    ensures Accounts(keys + [Entry(r.key, r.seqno, r.seqno, 1)], unknown, log + [r])
  {
    hide CountOf, FirstOf, LastOf, CountOutside;
    var e := Entry(r.key, r.seqno, r.seqno, 1);
    var t, more := keys + [e], log + [r];
    KeysGrow(keys, e);
    FirstLastExist(log, r.key);
    OneMore(log, r, r.key);
    forall i | 0 <= i < |keys|
      ensures Describes(t[i], more)
    {
      assert Describes(keys[i], log);
      OneMore(log, r, keys[i].key);
      assert keys[i].key in Keys(keys);
    }
    forall i, j | 0 <= i < j < |t|
      ensures t[i].key != t[j].key
    {
      assert t[i].key in Keys(keys);
    }
    assert forall i :: 0 <= i < |more| ==> more[i] == if i < |log| then log[i] else r;
    NoneOutside(log, Keys(keys));
    NoneOutside(more, Keys(t));
  }

  lemma AddKnown(keys: seq<Entry>, unknown: nat, log: seq<Rec>, r: Rec, at: nat)
    requires Accounts(keys, unknown, log) && at < |keys| && keys[at].key == r.key
    ensures Accounts(keys[at := keys[at].(last := r.seqno, count := keys[at].count + 1)], unknown, log + [r])
  {
    hide CountOf, FirstOf, LastOf, CountOutside;
    var e := keys[at].(last := r.seqno, count := keys[at].count + 1);
    var t, more := keys[at := e], log + [r];
    KeysSame(keys, at, e);
    forall i | 0 <= i < |t|
      ensures Describes(t[i], more)
    {
      assert Describes(keys[i], log);
      OneMore(log, r, keys[i].key);
    }
    assert keys[at].key in Keys(keys);
    OneMoreOutside(log, r, Keys(keys));
    assert forall i :: 0 <= i < |more| ==> more[i] == if i < |log| then log[i] else r;
  }

  class Index {
    const keys: array<Entry>
    var count: nat
    var unknown: nat
    ghost var log: seq<Rec>      // every record accounted for

    ghost predicate Valid()
      reads this, keys
    {
      keys.Length == INDEX_KEYS && count <= INDEX_KEYS && Accounts(keys[..count], unknown, log)
    }

    constructor ()
      ensures Valid() && log == [] && fresh(keys)
    {
      keys := new Entry[INDEX_KEYS];
      count, unknown, log := 0, 0, [];
    }

    /** Position of a key in the table, `count` when it is not there. */
    method Find(key: u64) returns (at: nat)
      requires count <= keys.Length
      ensures at <= count
      ensures at < count ==> keys[at].key == key
      ensures at == count <==> key !in Keys(keys[..count])
    {
      at := 0;
      while at < count && keys[at].key != key
        invariant at <= count && forall i :: 0 <= i < at ==> keys[i].key != key
      {
        at := at + 1;
      }
      if at < count { assert keys[..count][at].key == key; }
    }

    /** One more record of the log, whether read back or just written. */
    method Add(r: Rec)
      requires Valid()
      modifies this, keys
      ensures Valid()
      ensures log == if r.seqno == 0 then old(log) else old(log) + [r]
    {
      hide Accounts, Keys;
      if r.seqno == 0 {
        return;
      }
      var at := Find(r.key);
      ghost var was := keys[..count];
      if at == count {
        if count >= INDEX_KEYS {
          AddFull(was, unknown, log, r);
          unknown := unknown + 1;
          log := log + [r];
          return;
        }
        AddNew(was, unknown, log, r);
        keys[at] := Entry(r.key, r.seqno, r.seqno, 0);
        count := count + 1;
      } else {
        AddKnown(was, unknown, log, r, at);
      }
      keys[at] := keys[at].(last := r.seqno, count := keys[at].count + 1);
      assert keys[..count] == if at == |was| then was + [Entry(r.key, r.seqno, r.seqno, 1)]
                              else was[at := was[at].(last := r.seqno, count := was[at].count + 1)];
      log := log + [r];
    }

    /** Between which sequences to look for a key, from `from` on. */
    method Range(key: u64, from: nat) returns (r: Option<(nat, nat)>)
      requires Valid()
      ensures r.Some? <==> key in Keys(keys[..count])
      ensures r.Some? ==> FirstOf(log, key).Some? && LastOf(log, key).Some? && CountOf(log, key) > 0
      ensures r.Some? ==> r.value.1 == LastOf(log, key).value
      ensures r.Some? ==> r.value.0 == if from < FirstOf(log, key).value then FirstOf(log, key).value else from
    {
      hide FirstOf, LastOf, CountOf, CountOutside, Keys;
      var at := Find(key);
      if at == count {
        return None;
      }
      assert Describes(keys[..count][at], log);
      r := Some((if from < keys[at].first then keys[at].first else from, keys[at].last));
    }

    method Complete() returns (b: bool)
      ensures b <==> unknown == 0
    {
      b := unknown == 0;
    }
  }

  /** A complete table holds every key of the log. */
  lemma CompleteKnows(keys: seq<Entry>, unknown: nat, log: seq<Rec>, key: u64)
    requires Accounts(keys, unknown, log) && unknown == 0 && key !in Keys(keys)
    ensures CountOf(log, key) == 0
  {
    hide Keys;
    NoneOutside(log, Keys(keys));
    FirstLastExist(log, key);
  }
}
