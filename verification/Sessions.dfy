/**
 The session table: a fixed array of entries stamped with their last arrival,
 proved against a list kept in order of recency, and what that list is after
 a walk of the log.
 */
module Sessions {
  import opened Wrappers

  const SESSION_MAX: nat := 1024
  const DRAWS: nat := 8

  datatype Sess = Sess(id: nat, mark: nat)

  // ---- the table as a list, least recently seen first ----

  /** Where the session is held; the length when it is not. */
  function Find(t: seq<Sess>, id: nat): (k: nat)
    ensures k <= |t| && (k < |t| ==> t[k].id == id)
    ensures forall j :: 0 <= j < k ==> t[j].id != id
  {
    if t == [] then 0 else if t[0].id == id then 0 else 1 + Find(t[1..], id)
  }

  function Drop(t: seq<Sess>, k: nat): seq<Sess>
    requires k < |t|
  {
    t[..k] + t[k + 1..]
  }

  function Evict(t: seq<Sess>): seq<Sess> {
    if |t| >= SESSION_MAX then t[1..] else t
  }

  function Opened(t: seq<Sess>, id: nat): seq<Sess> {
    Evict(t) + [Sess(id, 0)]
  }

  function Observed(t: seq<Sess>, id: nat, clientSeq: nat): seq<Sess> {
    var k := Find(t, id);
    if id == 0 then t
    else if k < |t| then Drop(t, k) + [Sess(id, if clientSeq > t[k].mark then clientSeq else t[k].mark)]
    else Evict(t) + [Sess(id, clientSeq)]
  }

  /** A held session after a write of its own has been appended. */
  function Raised(t: seq<Sess>, k: nat, clientSeq: nat): seq<Sess>
    requires k < |t|
  {
    Drop(t, k) + [Sess(t[k].id, clientSeq)]
  }

  /** The first draw that is a usable id, of the few that are tried. */
  function Drawn(t: seq<Sess>, draws: seq<nat>, n: nat): Option<nat>
    requires n <= |draws|
    decreases n
  {
    if n == 0 then None
    else if Drawn(t, draws, n - 1).Some? then Drawn(t, draws, n - 1)
    else if draws[n - 1] != 0 && Find(t, draws[n - 1]) == |t| then Some(draws[n - 1]) else None
  }

  // ---- a permutation of the slots and its inverse ----

  ghost predicate Perm(order: seq<nat>, rank: seq<nat>) {
    && |order| == |rank|
    && (forall k :: 0 <= k < |order| ==> order[k] < |rank| && rank[order[k]] == k)
    && (forall i :: 0 <= i < |rank| ==> rank[i] < |order| && order[rank[i]] == i)
  }

  ghost function MoveLast<T>(s: seq<T>, k: nat): (r: seq<T>)
    requires k < |s|
    ensures |r| == |s| && r[|s| - 1] == s[k]
    ensures forall j :: 0 <= j < |s| - 1 ==> r[j] == s[if j < k then j else j + 1]
  {
    s[..k] + s[k + 1..] + [s[k]]
  }

  ghost function Reranked(rank: seq<nat>, i: nat): (r: seq<nat>)
    requires i < |rank|
  {
    seq(|rank|, x requires 0 <= x < |rank| =>
      if x == i then |rank| - 1 else if rank[x] > rank[i] then rank[x] - 1 else rank[x])
  }

  lemma PermMove(order: seq<nat>, rank: seq<nat>, i: nat)
    requires Perm(order, rank) && i < |rank|
    ensures Perm(MoveLast(order, rank[i]), Reranked(rank, i))
  {
    var o, r, n := MoveLast(order, rank[i]), Reranked(rank, i), |rank|;
    hide MoveLast;
    forall k | 0 <= k < n
      ensures o[k] < n && r[o[k]] == k
    {
      if k < n - 1 {
        var j := if k < rank[i] then k else k + 1;
        assert o[k] == order[j] && rank[order[j]] == j;
      }
    }
    forall x | 0 <= x < n
      ensures r[x] < n && o[r[x]] == x
    {
      if x != i {
        assert rank[x] != rank[i] by { assert order[rank[x]] == x && order[rank[i]] == i; }
        assert r[x] == if rank[x] > rank[i] then rank[x] - 1 else rank[x];
      }
    }
  }

  // ---- the cells in use, in order of their stamps ----

  datatype Entry = Entry(id: nat, last: nat, seen: nat)

  ghost predicate Sorted(cells: seq<Entry>, order: seq<nat>, rank: seq<nat>, next: nat) {
    && |order| == |cells| && Perm(order, rank)
    && (forall j, k :: 0 <= j < k < |order| ==> cells[order[j]].seen < cells[order[k]].seen)
    && (forall i :: 0 <= i < |cells| ==> cells[i].seen < next)
  }

  ghost function ListOf(cells: seq<Entry>, order: seq<nat>): (t: seq<Sess>)
    requires forall k :: 0 <= k < |order| ==> order[k] < |cells|
    ensures |t| == |order| && forall k :: 0 <= k < |t| ==> t[k] == Sess(cells[order[k]].id, cells[order[k]].last)
  {
    seq(|order|, k requires 0 <= k < |order| => Sess(cells[order[k]].id, cells[order[k]].last))
  }

  lemma StampKeeps(cells: seq<Entry>, order: seq<nat>, rank: seq<nat>, next: nat, i: nat, e: Entry)
    returns (o: seq<nat>, r: seq<nat>)
    requires Sorted(cells, order, rank, next) && i < |cells| && e.seen == next
    ensures Sorted(cells[i := e], o, r, next + 1)
    ensures |rank| == |order| == |r| == |cells| && rank[i] < |cells| && r[i] == |cells| - 1
    ensures ListOf(cells[i := e], o) == Drop(ListOf(cells, order), rank[i]) + [Sess(e.id, e.last)]
  {
    PermMove(order, rank, i);
    hide Perm, MoveLast, Reranked;
    var n, c := |cells|, cells[i := e];
    o, r := MoveLast(order, rank[i]), Reranked(rank, i);
    assert Perm(order, rank) && Perm(o, r);
    PermApart(order, rank, i);
    PermApart(o, r, i);
    forall j, k | 0 <= j < k < n
      ensures c[o[j]].seen < c[o[k]].seen
    {
    }
    assert ListOf(c, o) == Drop(ListOf(cells, order), rank[i]) + [Sess(e.id, e.last)];
  }

  lemma PermApart(order: seq<nat>, rank: seq<nat>, i: nat)
    requires Perm(order, rank) && i < |rank|
    ensures rank[i] < |order| == |rank| && order[rank[i]] == i
    ensures forall k :: 0 <= k < |order| ==> order[k] < |rank| && (order[k] == i <==> k == rank[i])
    ensures Reranked(rank, i)[i] == |rank| - 1
  {
    forall k | 0 <= k < |order|
      ensures order[k] < |rank| && (order[k] == i <==> k == rank[i])
    {
      assert rank[order[k]] == k;
    }
  }

  lemma PushKeeps(cells: seq<Entry>, order: seq<nat>, rank: seq<nat>, next: nat, e: Entry)
    requires Sorted(cells, order, rank, next) && e.seen == next
    ensures var n := |cells|;
      && |rank| == |order| == n && Sorted(cells + [e], order + [n], rank + [n], next + 1)
      && ListOf(cells + [e], order + [n]) == ListOf(cells, order) + [Sess(e.id, e.last)]
  {}

  /** Each id at most once among the cells. */
  ghost predicate Named(cells: seq<Entry>) {
    && (forall i :: 0 <= i < |cells| ==> cells[i].id != 0)
    && (forall i, j :: 0 <= i < j < |cells| ==> cells[i].id != cells[j].id)
  }

  /** All cells but cell i are as they were. */
  ghost predicate OthersStay(was: seq<Entry>, cells: seq<Entry>, i: nat) {
    forall j :: 0 <= j < |cells| && j != i ==> j < |was| && cells[j] == was[j]
  }

  lemma FindsCell(cells: seq<Entry>, order: seq<nat>, rank: seq<nat>, next: nat)
    requires Sorted(cells, order, rank, next) && Named(cells)
    ensures var t := ListOf(cells, order);
      && (forall i :: 0 <= i < |cells| ==> Find(t, cells[i].id) == rank[i])
      && (forall id, i :: 0 <= i < |cells| && Find(t, id) == |t| ==> cells[i].id != id)
  {
    hide Find;
    var t := ListOf(cells, order);
    forall i | 0 <= i < |cells|
      ensures Find(t, cells[i].id) == rank[i]
    {
      assert t[rank[i]].id == cells[i].id;
      var k := Find(t, cells[i].id);
      assert k < |t| && cells[order[k]].id == cells[i].id;
      assert order[k] == i;
    }
  }

  lemma NoneSorted(cells: seq<Entry>, order: seq<nat>, rank: seq<nat>, next: nat)
    requires cells == [] && order == [] && rank == []
    ensures Sorted(cells, order, rank, next) && Named(cells) && ListOf(cells, order) == []
  {}

  /** A cell's id or mark can change without touching the order. */
  lemma Relabelled(cells: seq<Entry>, order: seq<nat>, rank: seq<nat>, next: nat, i: nat, e: Entry)
    requires Sorted(cells, order, rank, next) && i < |cells| && e.seen == cells[i].seen
    ensures |rank| == |order| == |cells| && rank[i] < |cells|
    ensures Sorted(cells[i := e], order, rank, next)
    ensures ListOf(cells[i := e], order) == ListOf(cells, order)[rank[i] := Sess(e.id, e.last)]
  {
    PermApart(order, rank, i);
    assert ListOf(cells[i := e], order) == ListOf(cells, order)[rank[i] := Sess(e.id, e.last)];
  }

  // ---- the table itself ----

  class Table {
    const entries: array<Entry>
    var count: nat
    var nextSeen: nat
    var evicted: nat
    ghost var order: seq<nat>
    ghost var rank: seq<nat>

    ghost function Cells(): (c: seq<Entry>)
      requires count <= entries.Length
      reads this, entries
    {
      entries[..count]
    }

    ghost predicate Ordered()
      reads this, entries
    {
      entries.Length == SESSION_MAX && count <= SESSION_MAX && Sorted(Cells(), order, rank, nextSeen)
    }

    ghost predicate Valid()
      reads this, entries
    {
      Ordered() && Named(Cells())
    }

    ghost function List(): (t: seq<Sess>)
      requires Ordered()
      reads this, entries
      ensures |t| == count
    {
      ListOf(Cells(), order)
    }

    constructor ()
      ensures Valid() && List() == [] && evicted == 0 && fresh(entries)
    {
      entries := new Entry[SESSION_MAX](_ => Entry(0, 0, 0));
      count, nextSeen, evicted, order, rank := 0, 1, 0, [], [];
      new;
      hide Sorted, Named, ListOf;
      assert Cells() == [];
      NoneSorted(Cells(), order, rank, nextSeen);
    }

    method Lookup(id: nat) returns (found: bool, i: nat)
      requires Valid()
      ensures found <==> id != 0 && Find(List(), id) < count
      ensures found ==> i < count && entries[i].id == id && rank[i] == Find(List(), id)
    {
      FindsCell(Cells(), order, rank, nextSeen);
      assert forall j :: 0 <= j < count ==> Cells()[j] == entries[j];
      if id == 0 {
        return false, 0;
      }
      i := 0;
      while i < count
        invariant i <= count && forall j :: 0 <= j < i ==> entries[j].id != id
      {
        if entries[i].id == id {
          return true, i;
        }
        i := i + 1;
      }
      found := false;
    }

    method OldestIndex() returns (lowest: nat)
      requires Ordered() && count > 0
      ensures lowest < count && rank[lowest] == 0
    {
      lowest := 0;
      var i := 1;
      while i < count
        invariant 1 <= i <= count && lowest < i
        invariant forall j :: 0 <= j < i ==> entries[lowest].seen <= entries[j].seen
      {
        if entries[i].seen < entries[lowest].seen {
          lowest := i;
        }
        i := i + 1;
      }
      assert Cells()[lowest].seen <= Cells()[order[0]].seen;
      assert order[rank[lowest]] == lowest;
    }

    /** Mark an entry as the most recently seen. */
    method Stamp(i: nat)
      requires Ordered() && i < count
      modifies entries, `nextSeen, `order, `rank
      ensures Ordered() && rank[i] == count - 1
      ensures Cells() == old(Cells())[i := old(entries[i]).(seen := old(nextSeen))]
      ensures List() == Drop(old(List()), old(rank[i])) + [Sess(old(entries[i].id), old(entries[i].last))]
    {
      hide Sorted, Perm, MoveLast, Reranked;
      ghost var e := entries[i].(seen := nextSeen);
      ghost var o, r := StampKeeps(Cells(), order, rank, nextSeen, i, e);
      entries[i] := entries[i].(seen := nextSeen);
      nextSeen := nextSeen + 1;
      order, rank := o, r;
      assert Cells() == old(Cells())[i := e];
    }

    /** A cell for a session arriving now, the oldest one's when there is no other. */
    method SlotForNew() returns (i: nat)
      requires Valid()
      modifies this, entries
      ensures Ordered() && i < count && rank[i] == count - 1
      ensures count == if old(count) >= SESSION_MAX then old(count) else old(count) + 1
      ensures evicted == if old(count) >= SESSION_MAX then old(evicted) + 1 else old(evicted)
      ensures OthersStay(old(Cells()), Cells(), i)
      ensures entries[i].last == 0
      ensures List() == Evict(old(List())) + [Sess(entries[i].id, 0)]
    {
      hide Perm, MoveLast, Reranked, Sorted;
      ghost var o, r, e;
      if count >= SESSION_MAX {
        i := OldestIndex();
        evicted := evicted + 1;
        e := Entry(entries[i].id, 0, nextSeen);
        o, r := StampKeeps(Cells(), order, rank, nextSeen, i, e);
        assert Drop(List(), 0) == Evict(List());
      } else {
        i := count;
        e := Entry(entries[i].id, 0, nextSeen);
        PushKeeps(Cells(), order, rank, nextSeen, e);
        o, r := order + [i], rank + [i];
        count := count + 1;
      }
      entries[i] := entries[i].(last := 0);
      entries[i] := entries[i].(seen := nextSeen);
      nextSeen := nextSeen + 1;
      order, rank := o, r;
      assert Cells() == if i < old(count) then old(Cells())[i := e] else old(Cells()) + [e];
    }

    method Draw(draws: seq<nat>) returns (id: nat)
      requires Valid() && |draws| == DRAWS
      ensures Drawn(List(), draws, DRAWS) == if id == 0 then None else Some(id)
    {
      hide Sorted, Find, ListOf, Named;
      id := 0;
      var tries := 0;
      while tries < DRAWS
        invariant 0 <= tries <= DRAWS && id == 0 && Drawn(List(), draws, tries).None?
      {
        var candidate := draws[tries];
        var held, _ := Lookup(candidate);
        tries := tries + 1;
        if candidate != 0 && !held {
          id := candidate;
          break;
        }
      }
      if id != 0 {
        DrawnStays(List(), draws, tries, DRAWS);
      }
    }

    /** Issue a session under the first usable draw, or refuse when there is none. */
    method Create(draws: seq<nat>) returns (r: Option<nat>)
      requires Valid() && |draws| == DRAWS
      modifies this, entries
      ensures Valid() && r == Drawn(old(List()), draws, DRAWS)
      ensures List() == if r.Some? then Opened(old(List()), r.value) else old(List())
    {
      hide Sorted, Usable;
      var id := Draw(draws);
      DrawnIs(List(), draws, DRAWS);
      if id == 0 {
        return None;
      }
      var _ := Admit(id);
      r := Some(id);
    }

    /** Put an id or a mark on a cell, leaving its stamp. */
    method Label(i: nat, id: nat, last: nat)
      requires Ordered() && i < count
      modifies entries
      ensures Ordered() && |rank| == count && rank[i] < count
      ensures Cells() == old(Cells())[i := Entry(id, last, old(entries[i].seen))]
      ensures List() == old(List())[rank[i] := Sess(id, last)]
    {
      hide Sorted;
      ghost var cells, e := Cells(), Entry(id, last, entries[i].seen);
      Relabelled(cells, order, rank, nextSeen, i, e);
      entries[i] := Entry(id, last, entries[i].seen);
      assert Cells() == cells[i := e];
    }

    /** A new session in the table: a cell taken and named. */
    method Admit(id: nat) returns (i: nat)
      requires Valid() && id != 0 && Find(List(), id) == count
      modifies this, entries
      ensures Valid() && List() == Opened(old(List()), id)
      ensures i < count && entries[i].id == id && entries[i].last == 0 && |rank| == count && rank[i] == count - 1
      ensures evicted == if old(count) >= SESSION_MAX then old(evicted) + 1 else old(evicted)
    {
      hide Sorted, Find, ListOf, Named, SESSION_MAX, OthersStay, Evict;
      FindsCell(Cells(), order, rank, nextSeen);
      ghost var was := Cells();
      assert forall j :: 0 <= j < |was| ==> was[j].id != id;
      i := SlotForNew();
      ghost var cells := Cells();
      Label(i, id, entries[i].last);
      NamedNew(was, cells, i, Entry(id, 0, cells[i].seen));
      PutLast(old(Evict(List())), Sess(cells[i].id, 0), Sess(id, 0));
    }

    /** Account for a record: one read back, one streamed in, or one written. */
    method Observe(id: nat, clientSeq: nat)
      requires Valid()
      modifies this, entries
      ensures Valid() && List() == Observed(old(List()), id, clientSeq)
    {
      if id == 0 {
        return;
      }
      hide Sorted, Find, Named, Observed, Raised, Opened, Drop, ListOf;
      ghost var t := List();
      var held, i := Lookup(id);
      if !held {
        i := Admit(id);
      }
      CellInList(Cells(), order, rank, nextSeen, i);
      assert List()[rank[i]] == Sess(entries[i].id, entries[i].last);
      var last := entries[i].last;
      if clientSeq > last {
        last := clientSeq;
      }
      ObservedIs(t, List(), id, clientSeq, rank[i], last);
      Wrote(i, last);
    }

    /** Give a held session its mark and make it the most recently seen. */
    method Wrote(i: nat, clientSeq: nat)
      requires Valid() && i < count
      modifies this, entries
      ensures Valid() && old(rank[i]) < old(count)
      ensures List() == Raised(old(List()), old(rank[i]), clientSeq)
    {
      hide Sorted, Named;
      ghost var t, id := List(), entries[i].id;
      CellInList(Cells(), order, rank, nextSeen, i);
      NamedSame(Cells(), i, Entry(id, clientSeq, entries[i].seen));
      Label(i, entries[i].id, clientSeq);
      NamedSame(Cells(), i, entries[i].(seen := nextSeen));
      DropPut(t, rank[i], Sess(id, clientSeq));
      Stamp(i);
    }
  }

  lemma CellInList(cells: seq<Entry>, order: seq<nat>, rank: seq<nat>, next: nat, i: nat)
    requires Sorted(cells, order, rank, next) && i < |cells|
    ensures |rank| == |order| == |cells| && rank[i] < |cells|
    ensures ListOf(cells, order)[rank[i]] == Sess(cells[i].id, cells[i].last)
  {}

  /** Accounting for a record is finding or admitting the session and raising it. */
  lemma ObservedIs(t: seq<Sess>, u: seq<Sess>, id: nat, clientSeq: nat, k: nat, last: nat)
    requires id != 0 && k < |u|
    requires if Find(t, id) < |t| then u == t && k == Find(t, id) else u == Opened(t, id) && k == |u| - 1
    requires last == if clientSeq > u[k].mark then clientSeq else u[k].mark
    ensures Observed(t, id, clientSeq) == Raised(u, k, last)
  {
    if Find(t, id) == |t| {
      assert Drop(u, k) == Evict(t);
    }
  }

  lemma NamedSame(cells: seq<Entry>, i: nat, e: Entry)
    requires Named(cells) && i < |cells| && e.id == cells[i].id
    ensures Named(cells[i := e])
  {}

  lemma NamedNew(was: seq<Entry>, cells: seq<Entry>, i: nat, e: Entry)
    requires Named(was) && i < |cells| && e.id != 0 && forall j :: 0 <= j < |was| ==> was[j].id != e.id
    requires OthersStay(was, cells, i)
    ensures Named(cells[i := e])
  {}

  lemma PutLast(t: seq<Sess>, x: Sess, y: Sess)
    ensures (t + [x])[|t| := y] == t + [y]
  {}

  lemma DropPut(t: seq<Sess>, k: nat, x: Sess)
    requires k < |t|
    ensures Drop(t[k := x], k) == Drop(t, k) && t[k := t[k]] == t
    ensures k == |t| - 1 ==> Drop(t, k) == t[..k]
  {}

  predicate Usable(t: seq<Sess>, id: nat) {
    id != 0 && forall k :: 0 <= k < |t| ==> t[k].id != id
  }

  /** An id is issued if and only if some draw is usable, and it is then the first usable one. */
  lemma {:induction false} DrawnIs(t: seq<Sess>, draws: seq<nat>, n: nat)
    requires n <= |draws|
    ensures var d := Drawn(t, draws, n);
      && (d.None? <==> forall k :: 0 <= k < n ==> !Usable(t, draws[k]))
      && (d.Some? ==> Usable(t, d.value) && Find(t, d.value) == |t|
                      && exists k :: 0 <= k < n && draws[k] == d.value
                                     && forall j :: 0 <= j < k ==> !Usable(t, draws[j]))
  {
    if n > 0 {
      DrawnIs(t, draws, n - 1);
      var k := Find(t, draws[n - 1]);
      if k < |t| {
        assert t[k].id == draws[n - 1];
      }
    }
  }

  /** Opening a session, and writing in one, move the table as meeting its record in the log does. */
  lemma ArrivalSame(t: seq<Sess>, id: nat, k: nat, clientSeq: nat)
    requires id != 0
    ensures Find(t, id) == |t| ==> Opened(t, id) == Observed(t, id, 0)
    ensures Find(t, id) == k < |t| && t[k].mark < clientSeq ==> Raised(t, k, clientSeq) == Observed(t, id, clientSeq)
  {
    hide Find, Drop, Evict;
  }

  /**
   A session that is met is then the newest, under the higher of the two
   sequences; the others stay as they were, in order, but for the oldest when the
   table is full of others.
   */
  lemma ArrivalIs(t: seq<Sess>, id: nat, clientSeq: nat)
    requires id != 0
    ensures var u, f := Observed(t, id, clientSeq), Find(t, id);
      && u != [] && u[|u| - 1].id == id
      && u[|u| - 1].mark == (if f < |t| && t[f].mark > clientSeq then t[f].mark else clientSeq)
      && |u| == (if f < |t| || |t| >= SESSION_MAX then |t| else |t| + 1)
      && (f < |t| ==> t == u[..f] + [t[f]] + u[f..|u| - 1])
      && (f == |t| ==> u[..|u| - 1] == if |t| < SESSION_MAX then t else t[1..])
  {
    hide Find, Observed;
    var u, f := Observed(t, id, clientSeq), Find(t, id);
    if f < |t| {
      MetAgain(t, id, clientSeq);
    } else {
      MetFirst(t, id, clientSeq);
    }
  }

  lemma MetAgain(t: seq<Sess>, id: nat, clientSeq: nat)
    requires id != 0 && Find(t, id) < |t|
    ensures var u, f := Observed(t, id, clientSeq), Find(t, id);
      && |u| == |t| && u[|u| - 1] == Sess(id, if t[f].mark > clientSeq then t[f].mark else clientSeq)
      && t == u[..f] + [t[f]] + u[f..|u| - 1]
  {
    hide Find, Drop, Evict;
    var u, f := Observed(t, id, clientSeq), Find(t, id);
    DropIs(t, f);
    LastOff(Drop(t, f), u[|u| - 1], f);
  }

  lemma MetFirst(t: seq<Sess>, id: nat, clientSeq: nat)
    requires id != 0 && Find(t, id) == |t|
    ensures var u := Observed(t, id, clientSeq);
      && u == (if |t| < SESSION_MAX then t else t[1..]) + [Sess(id, clientSeq)]
  {
    hide Find, Drop, Evict;
    EvictIs(t);
  }

  lemma LastOff(s: seq<Sess>, x: Sess, k: nat)
    requires k <= |s|
    ensures (s + [x])[..k] == s[..k] && (s + [x])[k..|s|] == s[k..]
  {}

  lemma DropIs(t: seq<Sess>, k: nat)
    requires k < |t|
    ensures |Drop(t, k)| == |t| - 1 && Drop(t, k)[..k] == t[..k] && Drop(t, k)[k..] == t[k + 1..]
    ensures t == Drop(t, k)[..k] + [t[k]] + Drop(t, k)[k..]
  {}

  lemma EvictIs(t: seq<Sess>)
    ensures Evict(t) == if |t| < SESSION_MAX then t else t[1..]
    ensures |Evict(t)| == if |t| < SESSION_MAX then |t| else |t| - 1
  {}

  lemma {:induction false} DrawnStays(t: seq<Sess>, draws: seq<nat>, m: nat, n: nat)
    requires m <= n <= |draws| && Drawn(t, draws, m).Some?
    ensures Drawn(t, draws, n) == Drawn(t, draws, m)
  {
    if m < n {
      DrawnStays(t, draws, m, n - 1);
    }
  }
}
