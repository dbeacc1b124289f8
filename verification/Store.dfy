/**
 The log as a value: every segment there has ever been, what of it is
 linked in the directory, and how far the last one has been written and
 flushed. The steps of the log are functions on it.
 */
module Store {
  import opened Bytes
  import opened Record
  import opened Segment
  import opened SegTable
  import opened Wrappers

  datatype Seg = Seg(base: nat, images: seq<seq<byte>>, file: seq<byte>)

  /** The oldest `gone` segments have been unlinked; the last one is active. */
  datatype Log = Log(cap: nat, segs: seq<Seg>, gone: nat, writeOff: nat, syncedOff: nat, durable: int)

  function Last(w: Log): Seg
    requires w.segs != []
  {
    w.segs[|w.segs| - 1]
  }

  function Next(w: Log): nat
    requires w.segs != []
  {
    Last(w).base + |Last(w).images|
  }

  function Linked(w: Log): seq<Seg>
    requires w.gone <= |w.segs|
  {
    w.segs[w.gone..]
  }

  function FirstSeq(w: Log): nat
    requires w.gone < |w.segs|
  {
    w.segs[w.gone].base
  }

  /** Every record of a run of segments, in order. */
  function Flat(segs: seq<Seg>): seq<seq<byte>> {
    if segs == [] then [] else segs[0].images + Flat(segs[1..])
  }

  ghost predicate SegOk(s: Seg, cap: nat) {
    0 < s.base && |s.file| == cap && IsRun(s.file, cap, 0, s.base, s.images)
  }

  /** Segment i is not empty and the next one starts exactly where it stopped. */
  ghost predicate Link(segs: seq<Seg>, i: nat)
    requires i + 1 < |segs|
  {
    segs[i].images != [] && segs[i + 1].base == segs[i].base + |segs[i].images|
  }

  ghost predicate Chain(segs: seq<Seg>, cap: nat) {
    && (forall i :: 0 <= i < |segs| ==> SegOk(segs[i], cap))
    && (forall i :: 0 <= i < |segs| - 1 ==> Link(segs, i))
  }

  /** Unwritten space follows the last record of a segment. */
  ghost predicate EndsClean(s: Seg, cap: nat) {
    |Concat(s.images)| <= Limit(s.file, cap) && CleanAt(s.file, cap, |Concat(s.images)|)
  }

  ghost predicate AllEndClean(segs: seq<Seg>, cap: nat) {
    forall i :: 0 <= i < |segs| - 1 ==> EndsClean(segs[i], cap)
  }

  /** The segment invariant of the whole log, whatever its tails hold. */
  ghost predicate Placed(w: Log) {
    && HEADER <= w.cap && w.gone < |w.segs| <= w.gone + MAX_SEGMENTS
    && Chain(w.segs, w.cap)
    && w.writeOff == |Concat(Last(w).images)|
    && Last(w).base <= w.durable + 1 <= Next(w)
    && w.syncedOff == |Concat(Last(w).images[..w.durable + 1 - Last(w).base])|
  }

  /** The same with every finished segment ending in unwritten space. */
  ghost predicate Good(w: Log) {
    Placed(w) && AllEndClean(w.segs, w.cap)
  }

  /** Nothing has been left behind past the append point. */
  predicate TailClean(w: Log) {
    w.segs != [] && w.writeOff <= |Last(w).file| && AllZero(Last(w).file[w.writeOff..])
  }

  // ---- the steps ----

  function SetLast(w: Log, s: Seg): Log
    requires w.segs != []
  {
    w.(segs := w.segs[..|w.segs| - 1] + [s])
  }

  function Sync(w: Log): Log
    requires w.segs != []
  {
    w.(syncedOff := w.writeOff, durable := Next(w) - 1)
  }

  /** The flush, then a new segment named for the sequence after it. */
  function Roll(w: Log): Log
    requires w.segs != []
  {
    w.(segs := w.segs + [Seg(Next(w), [], Zeros(w.cap))], writeOff := 0, syncedOff := 0, durable := Next(w) - 1)
  }

  function Write(w: Log, img: seq<byte>): Log
    requires w.segs != [] && w.writeOff <= |Last(w).file|
  {
    var s := Last(w);
    SetLast(w, Seg(s.base, s.images + [img], WriteAt(s.file, w.writeOff, img))).(writeOff := w.writeOff + |img|)
  }

  function RollIfFull(w: Log, size: nat): Log
    requires w.segs != []
  {
    if w.writeOff + size <= w.cap then w else Roll(w)
  }

  /**
   Append with a scratch buffer of the given size. The result is the sequence
   the record was given.
   */
  function Append(w: Log, r: Rec, payload: seq<byte>, scratch: nat): (res: (Log, Result<nat>))
    requires w.segs != [] && w.writeOff <= |Last(w).file| && Next(w) < U64_LIMIT && w.gone <= |w.segs|
    requires SizeOf(r) != 0 ==> |payload| == r.len
  {
    var size := SizeOf(r);
    if size == 0 || size > w.cap then (w, Err(Invalid))
    else if w.writeOff + size > w.cap && |w.segs| - w.gone >= MAX_SEGMENTS then (w, Err(NoMemory))
    else
      var v := RollIfFull(w, size);
      if scratch < size then (v, Err(NoMemory))
      else (Write(v, Encode(r.(seqno := Next(w)), payload)), Ok(Next(w)))
  }

  /** v and res are what appending to w comes to. */
  ghost predicate Appends(w: Log, r: Rec, payload: seq<byte>, scratch: nat, v: Log, res: Result<nat>) {
    && w.segs != [] && w.writeOff <= |Last(w).file| && Next(w) < U64_LIMIT && w.gone <= |w.segs|
    && (SizeOf(r) != 0 ==> |payload| == r.len)
    && (v, res) == Append(w, r, payload, scratch)
  }

  // ---- what every step keeps ----

  lemma LastOk(w: Log)
    requires Placed(w)
    ensures SegOk(Last(w), w.cap)
    ensures |Concat(Last(w).images)| == w.writeOff <= w.cap == |Last(w).file|
  {
    hide IsRun;
    assert SegOk(w.segs[|w.segs| - 1], w.cap);
    RunFits(Last(w).file, w.cap, Last(w).base, Last(w).images);
  }

  lemma LastNotEmpty(w: Log)
    requires Placed(w) && 0 < w.writeOff
    ensures Last(w).images != []
  {
    hide Chain;
    NotNil(Last(w).images);
  }

  lemma NotNil(imgs: seq<seq<byte>>)
    ensures |Concat(imgs)| > 0 ==> imgs != []
  {}

  lemma RunFits(file: seq<byte>, cap: nat, first: nat, imgs: seq<seq<byte>>)
    requires IsRun(file, cap, 0, first, imgs)
    ensures |Concat(imgs)| <= Limit(file, cap)
  {}

  lemma ChainSetLast(segs: seq<Seg>, cap: nat, s: Seg)
    requires segs != [] && Chain(segs, cap) && SegOk(s, cap) && s.base == segs[|segs| - 1].base
    ensures Chain(segs[..|segs| - 1] + [s], cap)
  {
    hide SegOk;
    var n := |segs| - 1;
    var t := segs[..n] + [s];
    forall i | 0 <= i < |t| - 1
      ensures Link(t, i)
    {
      assert Link(segs, i);
    }
  }

  lemma EmptySegOk(l: Seg, cap: nat)
    requires SegOk(l, cap)
    ensures SegOk(Seg(l.base + |l.images|, [], Zeros(cap)), cap)
  {
    EmptyRun(Zeros(cap), cap, 0, l.base + |l.images|);
  }

  lemma ChainPush(segs: seq<Seg>, cap: nat, s: Seg)
    requires segs != [] && Chain(segs, cap) && SegOk(s, cap) && Link([segs[|segs| - 1], s], 0)
    ensures Chain(segs + [s], cap)
  {
    hide SegOk;
    var t := segs + [s];
    forall i | 0 <= i < |t|
      ensures SegOk(t[i], cap)
    {
      if i < |segs| { assert SegOk(segs[i], cap); }
    }
    forall i | 0 <= i < |t| - 1
      ensures Link(t, i)
    {
      if i < |segs| - 1 { assert Link(segs, i); }
    }
  }

  lemma {:induction false} FlatConcat(a: seq<Seg>, b: seq<Seg>)
    ensures Flat(a + b) == Flat(a) + Flat(b)
  {
    if a == [] {
      assert a + b == b;
    } else {
      assert (a + b)[1..] == a[1..] + b;
      FlatConcat(a[1..], b);
    }
  }

  lemma FlatOne(s: Seg)
    ensures Flat([s]) == s.images
  {
    assert [s][1..] == [];
    assert Flat([]) == [];
  }

  lemma FlatSetLast(segs: seq<Seg>, s: Seg)
    requires segs != []
    ensures Flat(segs) == Flat(segs[..|segs| - 1]) + segs[|segs| - 1].images
    ensures Flat(segs[..|segs| - 1] + [s]) == Flat(segs[..|segs| - 1]) + s.images
  {
    hide Flat;
    var n := |segs| - 1;
    assert segs == segs[..n] + [segs[n]];
    FlatConcat(segs[..n], [segs[n]]);
    FlatConcat(segs[..n], [s]);
    FlatOne(segs[n]);
    FlatOne(s);
  }

  /** Zeros read as unwritten space. */
  lemma ZeroIsClean(file: seq<byte>, cap: nat, off: nat)
    requires off <= Limit(file, cap) && AllZero(file[off..])
    ensures CleanAt(file, cap, off)
  {
    if Limit(file, cap) - off >= HEADER {
      var h := file[off..off + HEADER];
      assert forall k :: 0 <= k < HEADER ==> h[k] == file[off..][k];
      FromLeZero(h[16..24]);
    }
  }

  lemma SyncPlaced(w: Log)
    requires Placed(w)
    ensures Placed(Sync(w)) && (Good(w) ==> Good(Sync(w))) && (TailClean(w) ==> TailClean(Sync(w)))
  {
    hide Chain, AllEndClean;
    assert Last(w).images[..|Last(w).images|] == Last(w).images;
  }

  /** A flush is outstanding in bytes exactly when one is in records. */
  lemma NothingOutstanding(w: Log)
    requires Placed(w)
    ensures w.syncedOff == w.writeOff <==> w.durable == Next(w) - 1
  {
    hide IsRun, Link;
    LastOk(w);
    var s := Last(w);
    RunPrefix(s.file, w.cap, s.base, s.images, w.durable + 1 - s.base);
    assert s.images[..|s.images|] == s.images;
  }

  /**
   A rollover of a segment that holds something keeps the segment invariant,
   loses no record, and leaves every finished segment ending in unwritten
   space exactly when the one it left does.
   */
  lemma RollPlaced(w: Log)
    requires Placed(w) && 0 < w.writeOff && |w.segs| - w.gone < MAX_SEGMENTS
    ensures Placed(Roll(w)) && TailClean(Roll(w))
    ensures Flat(Roll(w).segs) == Flat(w.segs) && Next(Roll(w)) == Next(w)
    ensures Good(w) ==> (Good(Roll(w)) <==> EndsClean(Last(w), w.cap))
  {
    hide SegOk, EndsClean;
    LastOk(w);
    var v := Roll(w);
    assert Concat([]) == [];
    EmptySegOk(Last(w), w.cap);
    ChainPush(w.segs, w.cap, Last(v));
    FlatConcat(w.segs, [Last(v)]);
    FlatOne(Last(v));
    assert Last(v).images[..0] == [];
    if Good(w) {
      RollEnds(w);
    }
  }

  lemma RollEnds(w: Log)
    requires w.segs != [] && AllEndClean(w.segs, w.cap)
    ensures AllEndClean(Roll(w).segs, w.cap) <==> EndsClean(Last(w), w.cap)
  {
    hide EndsClean;
    var t := Roll(w).segs;
    assert t[|w.segs| - 1] == Last(w);
    forall i | 0 <= i < |t| - 1 && EndsClean(Last(w), w.cap)
      ensures EndsClean(t[i], w.cap)
    {
      if i < |w.segs| - 1 { assert EndsClean(w.segs[i], w.cap); }
    }
  }

  lemma WritePlaced(w: Log, img: seq<byte>)
    requires Placed(w) && IsRecordAt(img, Next(w)) && w.writeOff + |img| <= w.cap
    ensures w.writeOff <= |Last(w).file|
    ensures var v := Write(w, img);
      && Placed(v) && Flat(v.segs) == Flat(w.segs) + [img]
      && (Good(w) ==> Good(v)) && (TailClean(w) ==> TailClean(v))
  {
    hide IsRun, IsRecordAt, Link, EndsClean, WriteAt, Concat;
    LastOk(w);
    var s := Last(w);
    RunAppend(s.file, w.cap, s.base, s.images, img);
    WriteAtLength(s.file, w.writeOff, img);
    var t := Seg(s.base, s.images + [img], WriteAt(s.file, w.writeOff, img));
    ChainSetLast(w.segs, w.cap, t);
    FlatSetLast(w.segs, t);
    var n := w.durable + 1 - s.base;
    assert (s.images + [img])[..n] == s.images[..n];
    if TailClean(w) { TailAfterWrite(s.file, w.writeOff, img); }
  }

  lemma TailAfterWrite(file: seq<byte>, off: nat, img: seq<byte>)
    requires off + |img| <= |file| && AllZero(file[off..])
    ensures AllZero(WriteAt(file, off, img)[off + |img|..])
  {
    var f := WriteAt(file, off, img);
    var tail := f[off + |img|..];
    forall k | 0 <= k < |tail|
      ensures tail[k] == 0
    {
      assert tail[k] == f[off + |img| + k] == file[off + |img| + k] == file[off..][|img| + k];
    }
  }

  /** The record fits the active segment, or the table has room for another. */
  predicate HasRoom(w: Log, size: nat) {
    w.writeOff + size <= w.cap || |w.segs| - w.gone < MAX_SEGMENTS
  }

  lemma TailEndsClean(w: Log)
    requires Placed(w) && TailClean(w)
    ensures EndsClean(Last(w), w.cap)
  {
    hide Chain, IsRun, CleanAt, AllZero;
    LastOk(w);
    ZeroIsClean(Last(w).file, w.cap, w.writeOff);
  }

  lemma RollIfFullPlaced(w: Log, size: nat)
    requires Placed(w) && size <= w.cap && HasRoom(w, size)
    ensures var v := RollIfFull(w, size);
      && Placed(v) && v.cap == w.cap && v.gone == w.gone && v.writeOff + size <= w.cap
      && Next(v) == Next(w) && Flat(v.segs) == Flat(w.segs)
      && w.durable <= v.durable && |w.segs| <= |v.segs| <= |w.segs| + 1
      && (TailClean(w) ==> TailClean(v)) && (Good(w) && TailClean(w) ==> Good(v))
  {
    hide Chain, EndsClean, Flat;
    LastOk(w);
    if w.writeOff + size > w.cap {
      RollPlaced(w);
      if TailClean(w) { TailEndsClean(w); }
    }
  }

  /**
   An append keeps the invariant, assigns the next dense sequence and adds
   exactly that record, or adds nothing. From a clean tail it keeps that too,
   and with it every finished segment readable to its end.
   */
  lemma AppendKeeps(w: Log, r: Rec, payload: seq<byte>, scratch: nat)
    requires Placed(w) && Next(w) < U64_LIMIT
    requires SizeOf(r) != 0 ==> |payload| == r.len
    ensures w.writeOff <= |Last(w).file| && w.gone <= |w.segs|
    ensures var (v, res) := Append(w, r, payload, scratch);
      && Placed(v) && v.cap == w.cap && v.gone == w.gone
      && w.durable <= v.durable && |w.segs| <= |v.segs| <= |w.segs| + 1
      && (res.Ok? ==> res.value == Next(w) && Next(v) == Next(w) + 1
                      && Flat(v.segs) == Flat(w.segs) + [Encode(r.(seqno := Next(w)), payload)])
      && (res.Err? ==> Next(v) == Next(w) && Flat(v.segs) == Flat(w.segs))
      && (res.Ok? <==> 0 < SizeOf(r) <= w.cap && SizeOf(r) <= scratch && HasRoom(w, SizeOf(r)))
      && (res == Err(Invalid) <==> SizeOf(r) == 0 || SizeOf(r) > w.cap)
      && (TailClean(w) ==> TailClean(v)) && (Good(w) && TailClean(w) ==> Good(v))
  {
    hide Chain, AllEndClean, IsRecordAt, Encode, Flat, RollIfFull, TailClean;
    LastOk(w);
    var size := SizeOf(r);
    if size != 0 && size <= w.cap && HasRoom(w, size) {
      RollIfFullPlaced(w, size);
      var v := RollIfFull(w, size);
      LastOk(v);
      if scratch >= size {
        EncodedAt(r.(seqno := Next(w)), payload);
        WritePlaced(v, Encode(r.(seqno := Next(w)), payload));
      }
    }
  }

  // ---- where sequences live ----

  /** A segment's base is the first one's plus everything in between. */
  lemma {:induction false} BaseCounts(segs: seq<Seg>, cap: nat, j: nat)
    requires Chain(segs, cap) && j < |segs|
    ensures segs[j].base == segs[0].base + |Flat(segs[..j])|
    decreases j
  {
    hide SegOk;
    if j > 0 {
      BaseCounts(segs, cap, j - 1);
      assert Link(segs, j - 1);
      assert segs[..j] == segs[..j - 1] + [segs[j - 1]];
      FlatConcat(segs[..j - 1], [segs[j - 1]]);
      FlatOne(segs[j - 1]);
    }
  }

  lemma {:induction false} BasesAscend(segs: seq<Seg>, cap: nat, i: nat, j: nat)
    requires Chain(segs, cap) && i < j < |segs|
    ensures segs[i].base + |segs[i].images| <= segs[j].base && segs[i].images != []
    decreases j
  {
    hide SegOk;
    assert Link(segs, i);
    if i < j - 1 {
      BasesAscend(segs, cap, i, j - 1);
      assert Link(segs, j - 1);
    }
  }

  lemma FlatSlice(segs: seq<Seg>, j: nat)
    requires j < |segs|
    ensures var n := |Flat(segs[..j])|;
      && n + |segs[j].images| <= |Flat(segs)|
      && Flat(segs)[n..n + |segs[j].images|] == segs[j].images
      && Flat(segs)[..n] == Flat(segs[..j])
  {
    assert segs == segs[..j] + ([segs[j]] + segs[j + 1..]);
    FlatConcat(segs[..j], [segs[j]] + segs[j + 1..]);
    FlatConcat([segs[j]], segs[j + 1..]);
    FlatOne(segs[j]);
  }

  /** Entry k of the whole log carries sequence k past its first base. */
  lemma FlatRecord(segs: seq<Seg>, cap: nat, j: nat, k: nat)
    requires Chain(segs, cap) && j < |segs| && k < |segs[j].images|
    ensures var n := |Flat(segs[..j])| + k;
      && n < |Flat(segs)| && Flat(segs)[n] == segs[j].images[k]
      && segs[j].base + k == segs[0].base + n
      && IsRecordAt(Flat(segs)[n], segs[0].base + n)
  {
    hide Chain, IsRecordAt;
    BaseCounts(segs, cap, j);
    FlatSlice(segs, j);
    var m := |Flat(segs[..j])|;
    assert Flat(segs)[m..m + |segs[j].images|][k] == Flat(segs)[m + k];
    ImageAt(segs, cap, j, k);
  }

  lemma ImageAt(segs: seq<Seg>, cap: nat, j: nat, k: nat)
    requires Chain(segs, cap) && j < |segs| && k < |segs[j].images|
    ensures IsRecordAt(segs[j].images[k], segs[j].base + k)
  {
    hide IsRecordAt, Concat;
    assert SegOk(segs[j], cap);
  }

  /** The segment an entry of the whole log is in. */
  lemma {:induction false} Locate(segs: seq<Seg>, n: nat) returns (j: nat, k: nat)
    requires n < |Flat(segs)|
    ensures j < |segs| && k < |segs[j].images| && n == |Flat(segs[..j])| + k
    decreases |segs|
  {
    var last := |segs| - 1;
    FlatSetLast(segs, segs[last]);
    if n >= |Flat(segs[..last])| {
      j, k := last, n - |Flat(segs[..last])|;
    } else {
      j, k := Locate(segs[..last], n);
      assert segs[..last][..j] == segs[..j];
    }
  }

  /** The whole log is densely numbered, every entry a verified record. */
  lemma FlatDense(segs: seq<Seg>, cap: nat)
    requires segs != [] && Chain(segs, cap)
    ensures forall n :: 0 <= n < |Flat(segs)| ==> IsRecordAt(Flat(segs)[n], segs[0].base + n)
  {
    hide Chain, IsRecordAt;
    forall n | 0 <= n < |Flat(segs)|
      ensures IsRecordAt(Flat(segs)[n], segs[0].base + n)
    {
      var j, k := Locate(segs, n);
      FlatRecord(segs, cap, j, k);
    }
  }

  function BasesOf(segs: seq<Seg>): (s: seq<nat>)
    ensures |s| == |segs|
    ensures forall i :: 0 <= i < |segs| ==> s[i] == segs[i].base
  {
    seq(|segs|, i requires 0 <= i < |segs| => segs[i].base)
  }

  lemma LinkedBases(w: Log)
    requires Placed(w)
    ensures Ascending(BasesOf(Linked(w))) && |BasesOf(Linked(w))| <= MAX_SEGMENTS
  {
    hide SegOk, Link;
    var s := BasesOf(Linked(w));
    forall i, j | 0 <= i < j < |s|
      ensures s[i] < s[j]
    {
      BasesAscend(w.segs, w.cap, w.gone + i, w.gone + j);
    }
  }

  // ---- retention ----

  /** Segments a base table lets go when everything from `keep` on must stay. */
  function DropCount(bases: seq<nat>, keep: nat): (n: nat)
    ensures n <= |bases| && (bases != [] ==> n < |bases|)
  {
    if |bases| >= 2 && bases[1] <= keep then 1 + DropCount(bases[1..], keep) else 0
  }

  /** The base of the oldest of the newest k segments, or 0 when all are kept. */
  function RetainMark(bases: seq<nat>, k: int): nat {
    if k <= 0 || |bases| <= k then 0 else bases[|bases| - k]
  }

  /** Unlink from the oldest on; the unlink numbered `fails` does not happen. */
  function Retain(w: Log, keep: nat, fails: nat): Log
    requires w.gone <= |w.segs|
  {
    var drop := DropCount(BasesOf(Linked(w)), keep);
    w.(gone := w.gone + if fails < drop then fails else drop)
  }

  lemma {:induction false} DropIs(bases: seq<nat>, keep: nat)
    requires Ascending(bases)
    ensures var n := DropCount(bases, keep);
      && (forall i :: 0 < i <= n ==> bases[i] <= keep)
      && (n + 1 < |bases| ==> keep < bases[n + 1])
  {
    if |bases| >= 2 && bases[1] <= keep {
      DropIs(bases[1..], keep);
      var m := DropCount(bases[1..], keep);
      forall i | 0 < i <= m + 1
        ensures bases[i] <= keep
      {
        if i > 1 { assert bases[1..][i - 1] == bases[i]; }
      }
    } else if |bases| >= 2 {
      assert bases[1] > keep;
    }
  }

  /**
   Retention removes a prefix of segments every record of which is below
   `keep`, as many as there are unless an unlink fails, and touches no record.
   */
  lemma RetainSound(w: Log, keep: nat, fails: nat)
    requires Placed(w)
    ensures var v := Retain(w, keep, fails);
      && Placed(v) && (Good(w) ==> Good(v)) && v == w.(gone := v.gone) && w.gone <= v.gone
      && (forall i :: w.gone <= i < v.gone ==> w.segs[i].base + |w.segs[i].images| <= keep)
      && (FirstSeq(v) <= keep || v.gone == w.gone)
      && v.gone - w.gone <= fails
      && (v.gone - w.gone < fails && v.gone + 1 < |v.segs| ==> keep < v.segs[v.gone + 1].base)
  {
    hide Chain, AllEndClean, Concat, Ascending, DropCount, BasesOf;
    var bases, v := BasesOf(Linked(w)), Retain(w, keep, fails);
    LinkedBases(w);
    DropIs(bases, keep);
    forall i | w.gone <= i < v.gone
      ensures w.segs[i].base + |w.segs[i].images| <= keep
    {
      BasesAscend(w.segs, w.cap, i, i + 1);
      assert bases[i + 1 - w.gone] <= keep;
    }
    if v.gone > w.gone { assert bases[v.gone - w.gone] <= keep; }
    if v.gone + 1 < |v.segs| { assert bases[v.gone - w.gone + 1] == v.segs[v.gone + 1].base; }
  }

  lemma OrderedIndex(bases: seq<nat>, i: nat, j: nat)
    requires Ascending(bases) && i < |bases| && j < |bases| && bases[i] <= bases[j]
    ensures i <= j
  {}

  /** The mark for k segments is the base that exactly the newest k begin at or after. */
  lemma MarkKeepsNewest(w: Log, k: int)
    requires Placed(w)
    ensures var s, mark := Linked(w), RetainMark(BasesOf(Linked(w)), k);
      if k <= 0 || |s| <= k then mark == 0 && forall i :: 0 <= i < |s| ==> mark < s[i].base
      else
        && (exists i :: 0 <= i < |s| && s[i].base == mark)
        && (forall i :: 0 <= i < |s| ==> (mark <= s[i].base <==> |s| - k <= i))
  {
    hide Chain, Concat;
    var s, bases := Linked(w), BasesOf(Linked(w));
    LinkedBases(w);
    BasesPositive(w);
    if 0 < k < |s| {
      assert s[|s| - k].base == bases[|s| - k];
      forall i | 0 <= i < |s|
        ensures bases[|s| - k] <= s[i].base <==> |s| - k <= i
      {
        assert s[i].base == bases[i];
      }
    } else {
      assert forall i :: 0 <= i < |s| ==> s[i].base == bases[i];
    }
  }

  /** Given the mark for k segments, retention never leaves fewer than k. */
  lemma RetainKeeps(w: Log, k: int, keep: nat, fails: nat)
    requires Placed(w) && 0 < k && keep <= RetainMark(BasesOf(Linked(w)), k)
    ensures var v := Retain(w, keep, fails); |Linked(v)| >= k || v.gone == w.gone
  {
    hide Chain, BasesOf, Ascending;
    var bases, v := BasesOf(Linked(w)), Retain(w, keep, fails);
    LinkedBases(w);
    DropIs(bases, keep);
    BasesPositive(w);
    var n := v.gone - w.gone;
    if n > 0 {
      assert bases[n] <= keep;
      OrderedIndex(bases, n, |bases| - k);
    }
  }

  lemma BasesPositive(w: Log)
    requires Placed(w)
    ensures forall i :: 0 <= i < |Linked(w)| ==> 0 < BasesOf(Linked(w))[i]
  {
    hide IsRun;
    forall i | 0 <= i < |Linked(w)|
      ensures 0 < BasesOf(Linked(w))[i]
    {
      assert SegOk(w.segs[w.gone + i], w.cap);
    }
  }
}
