/**
 Opening a directory of segments, and what a machine crash leaves for it to
 open.
 */
module Recovery {
  import opened Bytes
  import opened Record
  import opened Segment
  import opened SegTable
  import opened Store
  import opened Wrappers

  /** A segment file as the directory lists it. */
  datatype File = File(base: nat, bytes: seq<byte>)

  /** What opening finds: each segment's records, and whether a tail was dropped. */
  datatype Opened = Opened(images: seq<seq<seq<byte>>>, torn: bool)

  /** Scan the segments in order; `expected` is where the next must begin. */
  function OpenFrom(dir: seq<File>, cap: nat, scratch: nat, expected: nat): (r: Result<Opened>)
    requires dir != []
    ensures r.Ok? ==> |r.value.images| == |dir|
  {
    var f := dir[0];
    if f.base != expected then Err(Storage)
    else
      var s := ScanFrom(f.bytes, cap, scratch, 0, f.base);
      if s.stop == NoRoom then Err(NoMemory)
      else if |dir| == 1 then Ok(Opened([s.images], s.stop == Torn))
      else if s.stop == Torn then Err(Storage)
      else
        match OpenFrom(dir[1..], cap, scratch, f.base + |s.images|)
        case Err(e) => Err(e)
        case Ok(o) => Ok(Opened([s.images] + o.images, o.torn))
  }

  function Files(segs: seq<Seg>): (d: seq<File>)
    ensures |d| == |segs|
    ensures forall i :: 0 <= i < |d| ==> d[i] == File(segs[i].base, segs[i].file)
  {
    seq(|segs|, i requires 0 <= i < |segs| => File(segs[i].base, segs[i].file))
  }

  function ImagesOf(segs: seq<Seg>): (s: seq<seq<seq<byte>>>)
    ensures |s| == |segs|
    ensures forall i :: 0 <= i < |s| ==> s[i] == segs[i].images
  {
    seq(|segs|, i requires 0 <= i < |segs| => segs[i].images)
  }

  function Flatten(s: seq<seq<seq<byte>>>): seq<seq<byte>> {
    if s == [] then [] else s[0] + Flatten(s[1..])
  }

  lemma ClosedScan(segs: seq<Seg>, i: nat, cap: nat, scratch: nat)
    requires i < |segs| && SegOk(segs[i], cap) && EndsClean(segs[i], cap) && scratch >= MAX_SIZE
    ensures ScanFrom(segs[i].file, cap, scratch, 0, segs[i].base)
         == Scan(segs[i].images, |Concat(segs[i].images)|, Clean)
  {
    hide IsRun, CleanAt, ScanFrom, Concat;
    ScanExact(segs[i].file, cap, scratch, 0, segs[i].base, segs[i].images);
  }

  lemma ChainTail(segs: seq<Seg>, cap: nat)
    requires |segs| >= 2 && Chain(segs, cap)
    ensures Chain(segs[1..], cap)
    ensures SegOk(segs[0], cap) && segs[0].images != [] && segs[1].base == segs[0].base + |segs[0].images|
  {
    ChainFrom(segs, cap, 1);
    hide SegOk;
    assert Link(segs, 0);
  }

  lemma ChainFrom(segs: seq<Seg>, cap: nat, from: nat)
    requires from < |segs| && Chain(segs, cap)
    ensures Chain(segs[from..], cap)
  {
    hide SegOk;
    var t := segs[from..];
    forall i | 0 <= i < |t|
      ensures SegOk(t[i], cap)
    {
      assert SegOk(segs[from + i], cap);
    }
    forall i | 0 <= i < |t| - 1
      ensures Link(t, i)
    {
      assert Link(segs, from + i);
    }
  }

  lemma EndsFrom(segs: seq<Seg>, cap: nat, from: nat)
    requires from < |segs| && AllEndClean(segs, cap)
    ensures AllEndClean(segs[from..], cap)
  {
    hide EndsClean;
  }

  function Lift(before: seq<seq<seq<byte>>>, r: Result<Opened>): Result<Opened> {
    match r
    case Err(e) => Err(e)
    case Ok(o) => Ok(Opened(before + o.images, o.torn))
  }

  /** Finished segments open as their records; what follows them decides the rest. */
  lemma {:induction false} OpenPrefix(segs: seq<Seg>, cap: nat, scratch: nat, tail: seq<File>)
    requires segs != [] && Chain(segs, cap) && AllEndClean(segs, cap) && scratch >= MAX_SIZE && tail != []
    ensures var n := |segs| - 1;
      OpenFrom(Files(segs[..n]) + tail, cap, scratch, segs[0].base)
      == Lift(ImagesOf(segs[..n]), OpenFrom(tail, cap, scratch, segs[n].base))
    decreases |segs|
  {
    hide Chain, AllEndClean, SegOk, EndsClean, ScanFrom, OpenFrom;
    var n := |segs| - 1;
    var r := OpenFrom(tail, cap, scratch, segs[n].base);
    if n == 0 {
      assert Files(segs[..0]) + tail == tail;
      assert ImagesOf(segs[..0]) == [];
      LiftNothing(r);
    } else {
      var dir := Files(segs[..n]) + tail;
      var t := segs[1..];
      ChainTail(segs, cap);
      EndsFrom(segs, cap, 1);
      FirstEnds(segs, cap);
      ClosedScan(segs, 0, cap, scratch);
      OpenPrefix(t, cap, scratch, tail);
      assert dir[1..] == Files(t[..n - 1]) + tail;
      assert dir[0] == File(segs[0].base, segs[0].file) && |dir| > 1;
      OpenStep(dir, cap, scratch, 0, segs[0].base);
      assert dir[0..] == dir;
      assert [segs[0].images] + ImagesOf(t[..n - 1]) == ImagesOf(segs[..n]);
      LiftTwice([segs[0].images], ImagesOf(t[..n - 1]), r);
    }
  }

  lemma FirstEnds(segs: seq<Seg>, cap: nat)
    requires |segs| > 1 && AllEndClean(segs, cap)
    ensures EndsClean(segs[0], cap)
  {
    hide EndsClean;
  }

  /**
   A chain whose last file has been replaced opens as the chain's records with
   the last segment's scanned anew, unless that scan has no room.
   */
  lemma OpenChain(segs: seq<Seg>, cap: nat, scratch: nat, bytes: seq<byte>)
    requires segs != [] && Chain(segs, cap) && AllEndClean(segs, cap) && scratch >= MAX_SIZE
    ensures var n := |segs| - 1;
      var s := ScanFrom(bytes, cap, scratch, 0, segs[n].base);
      OpenFrom(Files(segs[..n]) + [File(segs[n].base, bytes)], cap, scratch, segs[0].base)
      == if s.stop == NoRoom then Err(NoMemory)
         else Ok(Opened(ImagesOf(segs[..n]) + [s.images], s.stop == Torn))
  {
    hide Chain, AllEndClean, ScanFrom;
    OpenPrefix(segs, cap, scratch, [File(segs[|segs| - 1].base, bytes)]);
  }

  lemma LiftNothing(r: Result<Opened>)
    ensures Lift([], r) == r
  {
    if r.Ok? { assert [] + r.value.images == r.value.images; }
  }

  lemma LiftTwice(a: seq<seq<seq<byte>>>, b: seq<seq<seq<byte>>>, r: Result<Opened>)
    ensures Lift(a, Lift(b, r)) == Lift(a + b, r)
  {
    if r.Ok? { assert a + (b + r.value.images) == (a + b) + r.value.images; }
  }

  /** One segment of an opening, and what is left to open after it. */
  lemma OpenStep(dir: seq<File>, cap: nat, scratch: nat, i: nat, expected: nat)
    requires i < |dir|
    ensures var f, s := dir[i], ScanFrom(dir[i].bytes, cap, scratch, 0, dir[i].base);
      OpenFrom(dir[i..], cap, scratch, expected)
      == if f.base != expected then Err(Storage)
         else if s.stop == NoRoom then Err(NoMemory)
         else if i == |dir| - 1 then Ok(Opened([s.images], s.stop == Torn))
         else if s.stop == Torn then Err(Storage)
         else Lift([s.images], OpenFrom(dir[i + 1..], cap, scratch, f.base + |s.images|))
  {
    hide ScanFrom;
    assert dir[i..][0] == dir[i];
    if i < |dir| - 1 { assert dir[i..][1..] == dir[i + 1..]; }
  }

  lemma {:induction false} FlattenPush(a: seq<seq<seq<byte>>>, b: seq<seq<byte>>)
    ensures Flatten(a + [b]) == Flatten(a) + b
  {
    if a == [] {
      assert a + [b] == [b];
      assert [b][1..] == [];
      assert Flatten([]) == [];
    } else {
      assert (a + [b])[1..] == a[1..] + [b];
      FlattenPush(a[1..], b);
    }
  }

  // ---- a machine crash ----

  /**
   What a crash leaves of the active file: everything flushed, and anything at
   all after it.
   */
  ghost predicate Scrambled(w: Log, bytes: seq<byte>)
    requires w.segs != []
  {
    && |bytes| == w.cap && w.syncedOff <= w.cap <= |Last(w).file|
    && bytes[..w.syncedOff] == Last(w).file[..w.syncedOff]
  }

  /**
   The directory after a crash. Unlinks that were not yet made durable may be
   undone, newest first, so the listing starts at some `from` at or below the
   first linked segment.
   */
  ghost predicate CrashLeaves(w: Log, from: nat, dir: seq<File>) {
    && from <= w.gone < |w.segs| && |dir| == |w.segs| - from
    && dir[..|dir| - 1] == Files(w.segs[from..|w.segs| - 1])
    && dir[|dir| - 1].base == Last(w).base
    && Scrambled(w, dir[|dir| - 1].bytes)
  }

  /**
   The directory after a crash inside the rollover, once the flush is done and
   the new name is there: the new file is short but zero, or of full size
   holding anything.
   */
  ghost predicate RollCrashLeaves(w: Log, from: nat, dir: seq<File>) {
    && from <= w.gone < |w.segs| && |dir| == |w.segs| - from + 1
    && dir[..|dir| - 1] == Files(w.segs[from..])
    && var f := dir[|dir| - 1];
       f.base == Next(w) && (|f.bytes| == w.cap || (|f.bytes| < w.cap && AllZero(f.bytes)))
  }

  /** The flushed part of the active segment is the start of any later scan. */
  lemma FlushedSurvives(w: Log, bytes: seq<byte>, scratch: nat)
    requires Placed(w) && Scrambled(w, bytes) && scratch >= MAX_SIZE
    ensures var n, s := w.durable + 1 - Last(w).base, ScanFrom(bytes, w.cap, scratch, 0, Last(w).base);
      && s.stop != NoRoom
      && n <= |s.images| && s.images[..n] == Last(w).images[..n]
      && IsRun(bytes, w.cap, 0, Last(w).base, s.images)
  {
    hide Chain, IsRecordAt, ScanFrom, Concat;
    LastOk(w);
    var l := Last(w);
    var n := w.durable + 1 - l.base;
    var kept := l.images[..n];
    RunPrefix(l.file, w.cap, l.base, l.images, n);
    assert bytes[0..w.syncedOff] == bytes[..w.syncedOff] == l.file[0..w.syncedOff];
    assert IsRun(bytes, w.cap, 0, l.base, kept);
    ScanIsLongest(bytes, w.cap, scratch, 0, l.base, kept);
    ScanNeverShort(bytes, w.cap, scratch, 0, l.base);
    ScanIsRun(bytes, w.cap, scratch, 0, l.base);
  }

  lemma {:induction false} FlattenImages(segs: seq<Seg>, last: seq<seq<byte>>)
    ensures Flatten(ImagesOf(segs) + [last]) == Flat(segs) + last
  {
    var s := ImagesOf(segs) + [last];
    if segs == [] {
      assert s == [last];
      assert s[1..] == [];
      assert Flatten([]) == [];
    } else {
      FlattenImages(segs[1..], last);
      assert s[1..] == ImagesOf(segs[1..]) + [last];
    }
  }

  /** The records of the log from segment `from` on. */
  function Records(w: Log, from: nat): seq<seq<byte>>
    requires from <= |w.segs|
  {
    Flat(w.segs[from..])
  }

  /** How many of them a completed flush covers. */
  function Flushed(w: Log, from: nat): int
    requires from < |w.segs|
  {
    w.durable + 1 - w.segs[from].base
  }

  /**
   However a crash scrambles what was not flushed, the directory opens, and
   what it recovers begins with every flushed record, unchanged and in order.
   */
  lemma CrashRecovers(w: Log, from: nat, dir: seq<File>, scratch: nat)
    requires Good(w) && CrashLeaves(w, from, dir) && scratch >= MAX_SIZE
    ensures var r := OpenFrom(dir, w.cap, scratch, w.segs[from].base);
      && r.Ok?
      && 0 <= Flushed(w, from) <= |Flatten(r.value.images)| && Flushed(w, from) <= |Records(w, from)|
      && Flatten(r.value.images)[..Flushed(w, from)] == Records(w, from)[..Flushed(w, from)]
  {
    hide Chain, AllEndClean, ScanFrom, OpenFrom, Scrambled, IsRun, Concat, Files, ImagesOf;
    EndsFrom(w.segs, w.cap, from);
    var segs, n := w.segs[from..], |w.segs| - from - 1;
    var bytes := dir[n].bytes;
    ChainFrom(w.segs, w.cap, from);
    FlushedSurvives(w, bytes, scratch);
    assert w.segs[from..|w.segs| - 1] == segs[..n];
    assert dir == Files(segs[..n]) + [File(segs[n].base, bytes)];
    OpenChain(segs, w.cap, scratch, bytes);
    var s := ScanFrom(bytes, w.cap, scratch, 0, segs[n].base);
    FlattenImages(segs[..n], s.images);
    FlatSetLast(segs, segs[n]);
    BaseCounts(segs, w.cap, n);
    SplicePrefix(Flat(segs[..n]), s.images, Last(w).images, w.durable + 1 - Last(w).base);
  }

  lemma SplicePrefix<T>(a: seq<T>, b: seq<T>, c: seq<T>, k: nat)
    requires k <= |b| && k <= |c| && b[..k] == c[..k]
    ensures (a + b)[..|a| + k] == (a + c)[..|a| + k]
  {
    assert (a + b)[..|a| + k] == a + b[..k];
    assert (a + c)[..|a| + k] == a + c[..k];
  }

  lemma EmptyScan(bytes: seq<byte>, cap: nat, scratch: nat, base: nat)
    requires 0 < base && scratch >= MAX_SIZE && |bytes| <= cap && AllZero(bytes)
    ensures ScanFrom(bytes, cap, scratch, 0, base) == Scan([], 0, Clean)
  {
    assert bytes[0..] == bytes;
    ZeroIsClean(bytes, cap, 0);
    EmptyRun(bytes, cap, 0, base);
    ScanExact(bytes, cap, scratch, 0, base, []);
  }

  lemma LastSegOk(w: Log)
    requires Placed(w)
    ensures SegOk(Last(w), w.cap)
  {
    hide SegOk, Concat;
    assert SegOk(w.segs[|w.segs| - 1], w.cap);
  }

  lemma RollShape(w: Log)
    requires w.segs != []
    ensures var all := Roll(w).segs;
      all == w.segs + [Seg(Next(w), [], Zeros(w.cap))] && all[..|w.segs|] == w.segs
  {}

  lemma RolledChain(w: Log)
    requires Good(w) && 0 < w.writeOff && EndsClean(Last(w), w.cap)
    ensures var all := Roll(w).segs;
      && |all| == |w.segs| + 1 && all[..|w.segs|] == w.segs && all[|w.segs|].base == Next(w) > 0
      && Chain(all, w.cap) && AllEndClean(all, w.cap)
  {
    hide Chain, AllEndClean, SegOk, EndsClean, Concat, Zeros, Roll;
    RollShape(w);
    LastNotEmpty(w);
    LastSegOk(w);
    EmptySegOk(Last(w), w.cap);
    ChainPush(w.segs, w.cap, Seg(Next(w), [], Zeros(w.cap)));
    RollEnds(w);
    SegBasePositive(Last(w), w.cap);
  }

  /**
   The same inside a rollover: the flush came first, so the new name never
   claims a start nothing reaches, and nothing at all has been lost.
   */
  lemma RollCrashRecovers(w: Log, from: nat, dir: seq<File>, scratch: nat)
    requires Good(w) && 0 < w.writeOff && RollCrashLeaves(w, from, dir) && scratch >= MAX_SIZE
    requires EndsClean(Last(w), w.cap)
    ensures var r := OpenFrom(dir, w.cap, scratch, w.segs[from].base);
      && r.Ok?
      && |Records(w, from)| <= |Flatten(r.value.images)|
      && Flatten(r.value.images)[..|Records(w, from)|] == Records(w, from)
  {
    hide Chain, AllEndClean, EndsClean, ScanFrom, OpenFrom, Concat, Files, ImagesOf, AllZero, Zeros;
    var all, n := Roll(w).segs, |w.segs|;
    RolledChain(w);
    ChainFrom(all, w.cap, from);
    EndsFrom(all, w.cap, from);
    var segs, bytes := all[from..], dir[|dir| - 1].bytes;
    assert segs[..n - from] == w.segs[from..];
    assert dir == Files(segs[..n - from]) + [File(segs[n - from].base, bytes)];
    OpenChain(segs, w.cap, scratch, bytes);
    var s := ScanFrom(bytes, w.cap, scratch, 0, Next(w));
    if |bytes| == w.cap {
      ScanNeverShort(bytes, w.cap, scratch, 0, Next(w));
    } else {
      EmptyScan(bytes, w.cap, scratch, Next(w));
    }
    FlattenImages(w.segs[from..], s.images);
  }

  lemma SegBasePositive(s: Seg, cap: nat)
    requires SegOk(s, cap)
    ensures 0 < s.base
  {
    hide IsRun;
  }

  /**
   A dropped tail is not erased. What that costs, exactly: after a rollover
   the directory opens if and only if unwritten space followed the last record
   of the segment that was left.
   */
  lemma RolledOpensIffClean(w: Log, scratch: nat)
    requires Good(w) && 0 < w.writeOff && scratch >= MAX_SIZE
    ensures OpenFrom(Files(Linked(Roll(w))), w.cap, scratch, FirstSeq(w)).Ok? <==> EndsClean(Last(w), w.cap)
  {
    hide SegOk, ScanFrom, OpenFrom, Concat, Files, ImagesOf, EndsClean;
    LastOk(w);
    var segs, l := Linked(w), Last(w);
    var n := |segs| - 1;
    ChainFrom(w.segs, w.cap, w.gone);
    EndsFrom(w.segs, w.cap, w.gone);
    var tail := [File(l.base, l.file), File(Next(w), Zeros(w.cap))];
    FilesSplit(segs[..n], [l, Seg(Next(w), [], Zeros(w.cap))]);
    assert Linked(Roll(w)) == segs[..n] + [l, Seg(Next(w), [], Zeros(w.cap))];
    OpenPrefix(segs, w.cap, scratch, tail);
    TwoOpen(l, w.cap, scratch);
  }

  lemma FilesSplit(a: seq<Seg>, b: seq<Seg>)
    ensures Files(a + b) == Files(a) + Files(b)
    ensures |b| == 2 ==> Files(b) == [File(b[0].base, b[0].file), File(b[1].base, b[1].file)]
  {}

  /** A finished segment and an empty one after it open iff the first ends cleanly. */
  lemma TwoOpen(l: Seg, cap: nat, scratch: nat)
    requires SegOk(l, cap) && scratch >= MAX_SIZE
    ensures OpenFrom([File(l.base, l.file), File(l.base + |l.images|, Zeros(cap))], cap, scratch, l.base).Ok?
      <==> EndsClean(l, cap)
  {
    hide ScanFrom, Concat, CleanAt, IsRecordAt;
    var dir := [File(l.base, l.file), File(l.base + |l.images|, Zeros(cap))];
    assert dir[1..] == [File(l.base + |l.images|, Zeros(cap))];
    var s := ScanFrom(l.file, cap, scratch, 0, l.base);
    ScanIsLongest(l.file, cap, scratch, 0, l.base, l.images);
    ScanIsRun(l.file, cap, scratch, 0, l.base);
    ScanNeverShort(l.file, cap, scratch, 0, l.base);
    EmptyScan(Zeros(cap), cap, scratch, l.base + |l.images|);
    if |s.images| == |l.images| { assert s.images == l.images; }
    if EndsClean(l, cap) {
      ScanExact(l.file, cap, scratch, 0, l.base, l.images);
    }
  }

  // ---- the log that opening yields ----

  function SegsOf(dir: seq<File>, images: seq<seq<seq<byte>>>): (s: seq<Seg>)
    requires |images| == |dir|
    ensures |s| == |dir|
    ensures forall i :: 0 <= i < |s| ==> s[i] == Seg(dir[i].base, images[i], dir[i].bytes)
  {
    seq(|dir|, i requires 0 <= i < |dir| => Seg(dir[i].base, images[i], dir[i].bytes))
  }

  /** What was read back is what is durable. */
  function Reopened(dir: seq<File>, cap: nat, o: Opened): Log
    requires dir != [] && |o.images| == |dir|
  {
    var segs := SegsOf(dir, o.images);
    var l := segs[|segs| - 1];
    var end := |Concat(l.images)|;
    Log(cap, segs, 0, end, end, l.base + |l.images| - 1)
  }

  ghost predicate Sound(dir: seq<File>, cap: nat) {
    && dir != [] && 0 < dir[0].base
    && (forall i :: 0 <= i < |dir| ==> |dir[i].bytes| == cap)
    && (forall i :: 0 <= i < |dir| - 1 ==> dir[i].base < dir[i + 1].base)
  }

  lemma ChainCons(s: Seg, segs: seq<Seg>, cap: nat)
    requires segs != [] && SegOk(s, cap) && Chain(segs, cap) && Link([s, segs[0]], 0)
    ensures Chain([s] + segs, cap)
    ensures EndsClean(s, cap) && AllEndClean(segs, cap) ==> AllEndClean([s] + segs, cap)
  {
    hide SegOk, EndsClean;
    var t := [s] + segs;
    forall i | 0 <= i < |t|
      ensures SegOk(t[i], cap)
    {
      if i > 0 { assert SegOk(segs[i - 1], cap); }
    }
    forall i | 0 <= i < |t| - 1
      ensures Link(t, i)
    {
      if i > 0 { assert Link(segs, i - 1); }
    }
    if EndsClean(s, cap) && AllEndClean(segs, cap) {
      forall i | 0 <= i < |t| - 1
        ensures EndsClean(t[i], cap)
      {
        if i > 0 { assert EndsClean(segs[i - 1], cap); }
      }
    }
  }

  lemma ScannedSegOk(f: File, cap: nat, scratch: nat)
    requires 0 < f.base && |f.bytes| == cap
    ensures var s := ScanFrom(f.bytes, cap, scratch, 0, f.base);
      && SegOk(Seg(f.base, s.images, f.bytes), cap)
      && (scratch >= MAX_SIZE && s.stop == Clean ==> EndsClean(Seg(f.base, s.images, f.bytes), cap))
  {
    hide ScanFrom, CleanAt, IsRecordAt, Concat;
    ScanIsRun(f.bytes, cap, scratch, 0, f.base);
    if scratch >= MAX_SIZE { ScanNeverShort(f.bytes, cap, scratch, 0, f.base); }
  }

  /** The first segment of an opening that succeeds, and the opening of the rest. */
  lemma OpenedParts(dir: seq<File>, cap: nat, scratch: nat)
    requires dir != [] && OpenFrom(dir, cap, scratch, dir[0].base).Ok?
    ensures var s, o := ScanFrom(dir[0].bytes, cap, scratch, 0, dir[0].base), OpenFrom(dir, cap, scratch, dir[0].base);
      if |dir| == 1 then o.value.images == [s.images]
      else
        && s.stop == Clean && dir[1].base == dir[0].base + |s.images|
        && var rest := OpenFrom(dir[1..], cap, scratch, dir[1].base);
           rest.Ok? && o.value.images == [s.images] + rest.value.images
  {
    hide ScanFrom;
    var s := ScanFrom(dir[0].bytes, cap, scratch, 0, dir[0].base);
    if |dir| > 1 {
      assert dir[1..][0].base == dir[0].base + |s.images|;
    }
  }

  lemma {:induction false} OpenedChain(dir: seq<File>, cap: nat, scratch: nat)
    requires Sound(dir, cap)
    requires OpenFrom(dir, cap, scratch, dir[0].base).Ok?
    ensures var segs := SegsOf(dir, OpenFrom(dir, cap, scratch, dir[0].base).value.images);
      Chain(segs, cap) && (scratch >= MAX_SIZE ==> AllEndClean(segs, cap))
    decreases |dir|
  {
    hide SegOk, EndsClean, ScanFrom, Chain, AllEndClean, OpenFrom;
    OpenedParts(dir, cap, scratch);
    var o := OpenFrom(dir, cap, scratch, dir[0].base).value;
    var s := ScanFrom(dir[0].bytes, cap, scratch, 0, dir[0].base);
    var segs := SegsOf(dir, o.images);
    ScannedSegOk(dir[0], cap, scratch);
    if |dir| == 1 {
      assert segs == [Seg(dir[0].base, s.images, dir[0].bytes)];
      ChainOne(segs[0], cap);
    } else {
      assert dir[1..][0] == dir[1] && s.images != [];
      OpenedChain(dir[1..], cap, scratch);
      var rest := OpenFrom(dir[1..], cap, scratch, dir[1].base).value;
      assert segs == [Seg(dir[0].base, s.images, dir[0].bytes)] + SegsOf(dir[1..], rest.images);
      ChainCons(segs[0], segs[1..], cap);
    }
  }

  lemma ChainOne(s: Seg, cap: nat)
    requires SegOk(s, cap)
    ensures Chain([s], cap) && AllEndClean([s], cap)
  {}

  /** Whatever directory opens, the log it opens into meets the invariant. */
  lemma ReopenGood(dir: seq<File>, cap: nat, scratch: nat)
    requires Sound(dir, cap) && |dir| <= MAX_SEGMENTS && HEADER <= cap
    requires OpenFrom(dir, cap, scratch, dir[0].base).Ok?
    ensures var w := Reopened(dir, cap, OpenFrom(dir, cap, scratch, dir[0].base).value);
      Placed(w) && (scratch >= MAX_SIZE ==> Good(w)) && w.durable == Next(w) - 1
  {
    hide Chain, AllEndClean, OpenFrom;
    OpenedChain(dir, cap, scratch);
    var w := Reopened(dir, cap, OpenFrom(dir, cap, scratch, dir[0].base).value);
    assert Last(w).images[..|Last(w).images|] == Last(w).images;
  }

  // ---- whole runs ----

  datatype Op =
    | OpAppend(r: Rec, payload: seq<byte>)
    | OpSync
    | OpRetain(keep: nat, fails: nat)

  /** A payload of the length its header names, while sequences last. */
  ghost predicate Allowed(w: Log, op: Op) {
    && w.segs != [] && w.gone <= |w.segs| && w.writeOff <= |Last(w).file|
    && (op.OpAppend? ==> Next(w) < U64_LIMIT && (SizeOf(op.r) != 0 ==> |op.payload| == op.r.len))
  }

  function Step(w: Log, op: Op): Log
    requires Allowed(w, op)
  {
    match op
    case OpAppend(r, payload) => Append(w, r, payload, MAX_SIZE).0
    case OpSync => Sync(w)
    case OpRetain(keep, fails) => Retain(w, keep, fails)
  }

  ghost predicate RunAllowed(w: Log, ops: seq<Op>)
    decreases |ops|
  {
    ops == [] || (Allowed(w, ops[0]) && RunAllowed(Step(w, ops[0]), ops[1..]))
  }

  function RunOps(w: Log, ops: seq<Op>): Log
    requires RunAllowed(w, ops)
    decreases |ops|
  {
    if ops == [] then w else RunOps(Step(w, ops[0]), ops[1..])
  }

  lemma StepGood(w: Log, op: Op)
    requires Good(w) && TailClean(w) && Allowed(w, op)
    ensures var v := Step(w, op);
      && Good(v) && TailClean(v) && v.cap == w.cap && w.durable <= v.durable
      && |Flat(w.segs)| <= |Flat(v.segs)| && Flat(v.segs)[..|Flat(w.segs)|] == Flat(w.segs)
  {
    hide Placed, AllEndClean, TailClean, Append, Flat, Concat;
    match op
    case OpAppend(r, payload) => AppendKeeps(w, r, payload, MAX_SIZE);
    case OpSync => SyncKeeps(w);
    case OpRetain(keep, fails) =>
      RetainSound(w, keep, fails);
      RetainTail(w, keep, fails);
  }

  lemma SyncKeeps(w: Log)
    requires Placed(w)
    ensures (Good(w) ==> Good(Sync(w))) && (TailClean(w) ==> TailClean(Sync(w)))
    ensures w.durable <= Sync(w).durable && Sync(w).segs == w.segs
  {
    hide Chain, Concat;
    SyncPlaced(w);
  }

  lemma RetainTail(w: Log, keep: nat, fails: nat)
    requires Placed(w) && TailClean(w)
    ensures TailClean(Retain(w, keep, fails))
  {
    hide AllZero, Chain;
  }

  /** Any run keeps the invariant and the clean tail and only adds records. */
  lemma {:induction false} RunGood(w: Log, ops: seq<Op>)
    requires Good(w) && TailClean(w) && RunAllowed(w, ops)
    ensures var v := RunOps(w, ops);
      && Good(v) && TailClean(v) && v.cap == w.cap && w.durable <= v.durable
      && |Flat(w.segs)| <= |Flat(v.segs)| && Flat(v.segs)[..|Flat(w.segs)|] == Flat(w.segs)
    decreases |ops|
  {
    hide Good, TailClean, Allowed, Step, Flat;
    if ops != [] {
      StepGood(w, ops[0]);
      var v := Step(w, ops[0]);
      RunGood(v, ops[1..]);
      assert Flat(RunOps(v, ops[1..]).segs)[..|Flat(w.segs)|] == Flat(v.segs)[..|Flat(w.segs)|];
    }
  }

  /**
   From a clean tail: any run of appends, flushes, rollovers and retention,
   then a crash. The directory opens and every record that had been flushed is
   there, in order, with no hole.
   */
  lemma RunThenCrash(w: Log, ops: seq<Op>, from: nat, dir: seq<File>, scratch: nat)
    requires Good(w) && TailClean(w) && RunAllowed(w, ops) && scratch >= MAX_SIZE
    requires CrashLeaves(RunOps(w, ops), from, dir)
    ensures var v := RunOps(w, ops);
      var r := OpenFrom(dir, v.cap, scratch, v.segs[from].base);
      && r.Ok?
      && 0 <= Flushed(v, from) <= |Flatten(r.value.images)| && Flushed(v, from) <= |Records(v, from)|
      && Flatten(r.value.images)[..Flushed(v, from)] == Records(v, from)[..Flushed(v, from)]
  {
    RunGood(w, ops);
    hide Good, CrashLeaves, OpenFrom;
    CrashRecovers(RunOps(w, ops), from, dir, scratch);
  }

  lemma FlushedAndClean(v: Log)
    requires Good(v) && TailClean(v)
    ensures v.segs != [] && Good(Sync(v)) && EndsClean(Last(Sync(v)), v.cap)
  {
    hide Chain, AllEndClean, TailClean, EndsClean, Concat;
    SyncPlaced(v);
    TailEndsClean(v);
  }

  /**
   The same for a crash inside a rollover, which flushes before the new name is
   there: nothing at all is lost.
   */
  lemma RunThenRollCrash(w: Log, ops: seq<Op>, from: nat, dir: seq<File>, scratch: nat)
    requires Good(w) && TailClean(w) && RunAllowed(w, ops) && scratch >= MAX_SIZE
    requires var v := RunOps(w, ops); v.segs != [] && 0 < v.writeOff && RollCrashLeaves(Sync(v), from, dir)
    ensures var v := RunOps(w, ops);
      var r := OpenFrom(dir, v.cap, scratch, v.segs[from].base);
      && r.Ok? && |Records(v, from)| <= |Flatten(r.value.images)|
      && Flatten(r.value.images)[..|Records(v, from)|] == Records(v, from)
  {
    hide Good, TailClean, RollCrashLeaves, OpenFrom;
    RunGood(w, ops);
    FlushedAndClean(RunOps(w, ops));
    RollCrashRecovers(Sync(RunOps(w, ops)), from, dir, scratch);
  }
}
