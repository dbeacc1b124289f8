/**
 Segment files that are shorter than the segment. A crash between a new name and
 its allocation leaves an empty file; that opens, and appends then make it only
 as long as its records. What the next crash can cut it to, and what opening
 says to each cut.
 */
module Short {
  import opened Bytes
  import opened Record
  import opened Segment
  import opened Store
  import opened Recovery
  import opened Wrappers
  import Dirty

  // ---- scanning a run that has been cut ----

  /** How many of the records stand whole within the first n bytes. */
  function Whole(imgs: seq<seq<byte>>, n: nat): (j: nat)
    ensures j <= |imgs|
  {
    if imgs == [] || |imgs[0]| > n then 0 else 1 + Whole(imgs[1..], n - |imgs[0]|)
  }

  /** The largest number of records that fit, and no other. */
  lemma {:induction false} WholeIs(imgs: seq<seq<byte>>, n: nat)
    ensures var j := Whole(imgs, n);
      && |Concat(imgs[..j])| <= n
      && (forall k :: j < k <= |imgs| ==> n < |Concat(imgs[..k])|)
      && (imgs != [] && |imgs[0]| <= n ==> Concat(imgs[..j]) == imgs[0] + Concat(imgs[1..][..j - 1]))
  {
    hide Concat;
    var j := Whole(imgs, n);
    assert Concat(imgs[..0]) == [] by { ConcatNone(imgs[..0]); }
    if imgs != [] {
      forall k | 0 < k <= |imgs|
        ensures Concat(imgs[..k]) == imgs[0] + Concat(imgs[1..][..k - 1])
      {
        ConcatCons(imgs[0], imgs[1..][..k - 1]);
        assert [imgs[0]] + imgs[1..][..k - 1] == imgs[..k];
      }
      if |imgs[0]| <= n { WholeIs(imgs[1..], n - |imgs[0]|); }
    }
  }

  lemma ConcatNone(imgs: seq<seq<byte>>)
    requires imgs == []
    ensures Concat(imgs) == []
  {}

  /** Records numbered on from `first`. */
  ghost predicate Dense(imgs: seq<seq<byte>>, first: nat) {
    forall i :: 0 <= i < |imgs| ==> IsRecordAt(imgs[i], first + i)
  }

  lemma DenseTail(imgs: seq<seq<byte>>, first: nat)
    requires imgs != [] && Dense(imgs, first)
    ensures IsRecordAt(imgs[0], first) && Dense(imgs[1..], first + 1)
  {
    hide IsRecordAt;
    assert IsRecordAt(imgs[0], first + 0);
    forall i | 0 <= i < |imgs[1..]|
      ensures IsRecordAt(imgs[1..][i], first + 1 + i)
    {
      assert IsRecordAt(imgs[i + 1], first + (i + 1));
    }
  }

  /** A record of which only a part is there: nothing to see without its header, and no room for it with. */
  lemma PartProbed(file: seq<byte>, cap: nat, scratch: nat, off: nat, first: nat, img: seq<byte>)
    requires scratch >= MAX_SIZE && 0 < first && off <= |file| <= cap && off + |img| <= cap
    requires IsRecordAt(img, first) && |file| - off < |img| && file[off..] == img[..|file| - off]
    ensures ProbeAt(file, cap, scratch, off, first)
         == Halt(if |file| - off >= HEADER then Stop.NoRoom else Stop.Clean)
  {
    hide Decode, SizeOf, Verify;
    if |file| - off >= HEADER {
      RecordFacts(img, first);
      assert file[off..off + HEADER] == file[off..][..HEADER] == img[..HEADER];
      DecodePrefix(file[off..off + HEADER], img);
    }
  }

  /**
   The scan of a dense run cut anywhere takes the records that are whole, and
   has no room for the next exactly when its header is there.
   */
  lemma {:induction false} CutScan(file: seq<byte>, cap: nat, scratch: nat, off: nat, first: nat, imgs: seq<seq<byte>>)
    requires scratch >= MAX_SIZE && 0 < first && off <= |file| <= cap && Dense(imgs, first)
    requires |file| - off <= |Concat(imgs)| <= cap - off && file[off..] == Concat(imgs)[..|file| - off]
    ensures var j := Whole(imgs, |file| - off);
      var end := off + |Concat(imgs[..j])|;
      && end <= |file|
      && ScanFrom(file, cap, scratch, off, first)
         == Scan(imgs[..j], end, if |file| - end >= HEADER then Stop.NoRoom else Stop.Clean)
    decreases |imgs|
  {
    hide ProbeAt, IsRecordAt, Concat, Dense;
    var n := |file| - off;
    WholeIs(imgs, n);
    if imgs == [] {
      ConcatNone(imgs);
      ConcatNone(imgs[..0]);
      ProbeStops(file, cap, scratch, off, first);
    } else {
      DenseTail(imgs, first);
      ConcatCons(imgs[0], imgs[1..]);
      assert [imgs[0]] + imgs[1..] == imgs;
      CutSlices(file, off, imgs[0], Concat(imgs[1..]));
      if |imgs[0]| > n {
        ConcatNone(imgs[..0]);
        PartProbed(file, cap, scratch, off, first, imgs[0]);
      } else {
        var next := off + |imgs[0]|;
        ProbeFinds(file, cap, scratch, off, first, imgs[0]);
        CutScan(file, cap, scratch, next, first + 1, imgs[1..]);
        var j := Whole(imgs[1..], |file| - next);
        assert [imgs[0]] + imgs[1..][..j] == imgs[..j + 1];
      }
    }
  }

  /** What is there of the first record of a cut run, and of those after it. */
  lemma CutSlices(file: seq<byte>, off: nat, img: seq<byte>, rest: seq<byte>)
    requires off <= |file| && |file| - off <= |img + rest| && file[off..] == (img + rest)[..|file| - off]
    ensures |img| > |file| - off ==> file[off..] == img[..|file| - off]
    ensures |img| <= |file| - off ==> file[off..off + |img|] == img
    ensures |img| <= |file| - off ==> file[off + |img|..] == rest[..|file| - off - |img|]
  {
    if |img| <= |file| - off {
      var next := off + |img|;
      assert file[off..next] == file[off..][..|img|];
      assert file[next..] == file[off..][|img|..];
    }
  }

  // ---- opening a directory whose last file is short ----

  /** Whatever a last file holds, and however long it is: it is refused exactly when its scan comes to a cut record. */
  lemma RefusedIff(segs: seq<Seg>, cap: nat, scratch: nat, bytes: seq<byte>)
    requires segs != [] && Chain(segs, cap) && AllEndClean(segs, cap) && scratch >= MAX_SIZE
    ensures var l := segs[|segs| - 1];
      var r, s := OpenFrom(Files(segs[..|segs| - 1]) + [File(l.base, bytes)], cap, scratch, segs[0].base),
        ScanFrom(bytes, cap, scratch, 0, l.base);
      && (r.Err? <==> CutShort(bytes, cap, s.end))
      && (r.Err? ==> r == Err(NoMemory))
  {
    hide Chain, AllEndClean, ScanFrom, OpenFrom, CutShort;
    OpenChain(segs, cap, scratch, bytes);
    ScanNeverShort(bytes, cap, scratch, 0, segs[|segs| - 1].base);
  }

  /** What opening says to a run that has been cut after n bytes. */
  function CutAnswer(before: seq<seq<seq<byte>>>, imgs: seq<seq<byte>>, n: nat): Result<Opened> {
    var j := Whole(imgs, n);
    if n - |Concat(imgs[..j])| >= HEADER then Err(NoMemory) else Ok(Opened(before + [imgs[..j]], false))
  }

  /** For every dense run, and every cut of its bytes. */
  lemma CutOpens(segs: seq<Seg>, cap: nat, scratch: nat, imgs: seq<seq<byte>>, n: nat)
    requires segs != [] && Chain(segs, cap) && AllEndClean(segs, cap) && scratch >= MAX_SIZE
    requires Dense(imgs, segs[|segs| - 1].base) && n <= |Concat(imgs)| <= cap
    ensures var k := |segs| - 1;
      OpenFrom(Files(segs[..k]) + [File(segs[k].base, Concat(imgs)[..n])], cap, scratch, segs[0].base)
      == CutAnswer(ImagesOf(segs[..k]), imgs, n)
  {
    hide Chain, AllEndClean, ScanFrom, OpenFrom, Dense, Concat, Whole;
    var base, bytes := segs[|segs| - 1].base, Concat(imgs)[..n];
    BasePositive(segs, cap);
    assert bytes[0..] == bytes;
    CutScan(bytes, cap, scratch, 0, base, imgs);
    OpenChain(segs, cap, scratch, bytes);
  }

  lemma BasePositive(segs: seq<Seg>, cap: nat)
    requires segs != [] && Chain(segs, cap)
    ensures 0 < segs[|segs| - 1].base
  {
    hide IsRun;
    assert SegOk(segs[|segs| - 1], cap);
  }

  // ---- runs that come to it ----

  /** The segments with the last one as its allocation would have made it. */
  function Filled(w: Log): (segs: seq<Seg>)
    requires w.segs != []
    ensures |segs| == |w.segs|
  {
    w.segs[..|w.segs| - 1] + [Seg(Last(w).base, [], Zeros(w.cap))]
  }

  /** A log whose last file is no longer than the records in it. */
  ghost predicate Unallocated(w: Log) {
    && w.gone < |w.segs| && Chain(Filled(w), w.cap) && AllEndClean(Filled(w), w.cap)
    && Last(w).file == Concat(Last(w).images) && |Last(w).file| == w.writeOff <= w.cap
    && Dense(Last(w).images, Last(w).base)
    && Last(w).base <= w.durable + 1 <= Next(w)
    && w.syncedOff == |Concat(Last(w).images[..w.durable + 1 - Last(w).base])|
  }

  /**
   The directory after a crash of such a log: all that was flushed, and of the
   rest as much as had reached the disk from the front.
   */
  ghost predicate CutLeaves(w: Log, from: nat, dir: seq<File>) {
    && from <= w.gone < |w.segs| && |dir| == |w.segs| - from
    && dir[..|dir| - 1] == Files(w.segs[from..|w.segs| - 1])
    && var f := dir[|dir| - 1];
       f.base == Last(w).base && w.syncedOff <= |f.bytes| && f.bytes <= Last(w).file
  }

  /** A directory by its last file. */
  lemma DirIs(dir: seq<File>, before: seq<File>, f: File)
    requires dir != [] && dir[..|dir| - 1] == before && dir[|dir| - 1] == f
    ensures dir == before + [f]
  {}

  /** The rolled log from one of its segments on. */
  lemma RolledFrom(w: Log, from: nat)
    requires Good(w) && 0 < w.writeOff && EndsClean(Last(w), w.cap) && from < |w.segs|
    ensures var all := w.segs[from..] + [Seg(Next(w), [], Zeros(w.cap))];
      Chain(all, w.cap) && AllEndClean(all, w.cap)
  {
    RolledChain(w);
    RollShape(w);
    hide Roll, Good, Chain, AllEndClean, EndsClean, Concat, Zeros;
    var all := Roll(w).segs;
    ChainFrom(all, w.cap, from);
    EndsFrom(all, w.cap, from);
    assert all[from..] == w.segs[from..] + [Seg(Next(w), [], Zeros(w.cap))];
  }

  /** A chain that goes on with an empty file opens, and the file as a segment without records. */
  lemma EmptyOpens(segs: seq<Seg>, base: nat, cap: nat)
    requires segs != [] && 0 < base
    requires var all := segs + [Seg(base, [], Zeros(cap))]; Chain(all, cap) && AllEndClean(all, cap)
    ensures OpenFrom(Files(segs) + [File(base, [])], cap, MAX_SIZE, segs[0].base)
         == Ok(Opened(ImagesOf(segs) + [[]], false))
  {
    hide Chain, AllEndClean, ScanFrom, OpenFrom, Files, ImagesOf, Zeros;
    var all := segs + [Seg(base, [], Zeros(cap))];
    OpenChain(all, cap, MAX_SIZE, []);
    assert all[..|segs|] == segs;
    EmptyScan([], cap, MAX_SIZE, base);
  }

  /** An empty last file opens, as a segment without records. */
  lemma RolledOpens(w: Log, from: nat, dir: seq<File>)
    requires Good(w) && 0 < w.writeOff && RollCrashLeaves(w, from, dir) && dir[|dir| - 1].bytes == []
    requires EndsClean(Last(w), w.cap)
    ensures OpenFrom(dir, w.cap, MAX_SIZE, w.segs[from].base) == Ok(Opened(ImagesOf(w.segs[from..]) + [[]], false))
    ensures dir == Files(w.segs[from..]) + [File(Next(w), [])]
    ensures var all := w.segs[from..] + [Seg(Next(w), [], Zeros(w.cap))];
      Chain(all, w.cap) && AllEndClean(all, w.cap)
  {
    RolledFrom(w, from);
    LastSegOk(w);
    SegBasePositive(Last(w), w.cap);
    hide Good, Chain, AllEndClean, EndsClean, OpenFrom, Files, ImagesOf, Zeros;
    DirIs(dir, Files(w.segs[from..]), File(Next(w), []));
    EmptyOpens(w.segs[from..], Next(w), w.cap);
  }

  lemma EmptyLast(segs: seq<Seg>, base: nat, cap: nat, v: Log)
    requires v == Log(cap, segs + [Seg(base, [], [])], 0, 0, 0, base - 1)
    requires var all := segs + [Seg(base, [], Zeros(cap))]; Chain(all, cap) && AllEndClean(all, cap)
    ensures Unallocated(v) && Records(v, 0) == Flat(segs)
  {
    hide Chain, AllEndClean, Zeros, Concat;
    assert v.segs[..|segs|] == segs && v.segs[0..] == v.segs;
    FlatConcat(segs, [Seg(base, [], [])]);
    FlatOne(Seg(base, [], []));
    ConcatNone(Last(v).images);
    ConcatNone(Last(v).images[..0]);
  }

  lemma ReopensEmpty(segs: seq<Seg>, base: nat, cap: nat, dir: seq<File>)
    requires 0 < base && dir == Files(segs) + [File(base, [])]
    ensures Reopened(dir, cap, Opened(ImagesOf(segs) + [[]], false))
         == Log(cap, segs + [Seg(base, [], [])], 0, 0, 0, base - 1)
  {
    hide Concat;
    var images := ImagesOf(segs) + [[]];
    assert SegsOf(dir, images) == segs + [Seg(base, [], [])];
    ConcatNone(images[|images| - 1]);
  }

  /** It is what opening makes of a directory that a crash inside a rollover left. */
  lemma RolledShort(w: Log, from: nat, dir: seq<File>)
    requires Good(w) && 0 < w.writeOff && RollCrashLeaves(w, from, dir) && dir[|dir| - 1].bytes == []
    requires EndsClean(Last(w), w.cap)
    ensures var r := OpenFrom(dir, w.cap, MAX_SIZE, w.segs[from].base);
      && r.Ok?
      && (var v := Reopened(dir, w.cap, r.value); Unallocated(v) && Records(v, 0) == Records(w, from))
  {
    RolledOpens(w, from, dir);
    LastSegOk(w);
    SegBasePositive(Last(w), w.cap);
    hide Good, EndsClean, OpenFrom, Files, ImagesOf, Zeros, Unallocated, Chain, AllEndClean, Reopened;
    var segs := w.segs[from..];
    ReopensEmpty(segs, Next(w), w.cap, dir);
    EmptyLast(segs, Next(w), w.cap, Reopened(dir, w.cap, Opened(ImagesOf(segs) + [[]], false)));
  }

  lemma DensePush(imgs: seq<seq<byte>>, first: nat, img: seq<byte>)
    requires Dense(imgs, first) && IsRecordAt(img, first + |imgs|)
    ensures Dense(imgs + [img], first) && Concat(imgs + [img]) == Concat(imgs) + img
  {
    hide IsRecordAt, Concat;
    ConcatAppend(imgs, [img]);
    ConcatOne(img);
  }

  lemma AppendShort(w: Log, r: Rec, payload: seq<byte>)
    requires Unallocated(w) && Allowed(w, OpAppend(r, payload))
    ensures var v := Append(w, r, payload, MAX_SIZE).0;
      && |w.segs| <= |v.segs|
      && (|v.segs| == |w.segs| ==> Unallocated(v) && v.cap == w.cap && w.gone == v.gone && Last(v).base == Last(w).base
                                   && v.segs[..|v.segs| - 1] == w.segs[..|w.segs| - 1])
  {
    hide Chain, AllEndClean, Dense, Concat, IsRecordAt, Encode, WriteAt, SizeOf;
    var v := Append(w, r, payload, MAX_SIZE).0;
    if v != w && |v.segs| == |w.segs| {
      SizeSame(r, Next(w));
      EncodedFits(r.(seqno := Next(w)), payload);
      var l, img := Last(w), Encode(r.(seqno := Next(w)), payload);
      DensePush(l.images, l.base, img);
      WriteAtEnd(l.file, img);
      var n := w.durable + 1 - l.base;
      assert (l.images + [img])[..n] == l.images[..n];
      assert Filled(v) == Filled(w);
    }
  }

  lemma SizeSame(r: Rec, n: u64)
    ensures SizeOf(r.(seqno := n)) == SizeOf(r)
  {}

  lemma EncodedFits(r: Rec, payload: seq<byte>)
    requires SizeOf(r) != 0 && |payload| == r.len
    ensures r.len <= MAX_PAYLOAD
    ensures IsRecordAt(Encode(r, payload), r.seqno) && |Encode(r, payload)| == SizeOf(r)
  {
    assert r.len <= MAX_PAYLOAD;
    EncodedAt(r, payload);
    hide IsRecordAt;
  }

  /** A step either keeps such a log so, in the same segment, or rolls over. */
  lemma StepShort(w: Log, op: Op)
    requires Unallocated(w) && Allowed(w, op)
    ensures var v := Step(w, op);
      && |w.segs| <= |v.segs| && v.segs != []
      && (|v.segs| == |w.segs| ==> Unallocated(v) && v.cap == w.cap && w.gone <= v.gone && Last(v).base == Last(w).base
                                   && v.segs[..|v.segs| - 1] == w.segs[..|w.segs| - 1])
  {
    hide Chain, AllEndClean, Dense, Concat, Append;
    match op
    case OpAppend(r, payload) => AppendShort(w, r, payload);
    case OpSync => assert Last(w).images[..|Last(w).images|] == Last(w).images;
    case OpRetain(keep, fails) =>
      var drop := DropCount(BasesOf(Linked(w)), keep);
  }

  /** Any run that stays in the segment leaves a file of its records and nothing else. */
  lemma {:induction false} RunShort(w: Log, ops: seq<Op>)
    requires Unallocated(w) && RunAllowed(w, ops)
    ensures var v := RunOps(w, ops);
      && |w.segs| <= |v.segs|
      && (|v.segs| == |w.segs| ==> Unallocated(v) && v.cap == w.cap && w.gone <= v.gone)
    decreases |ops|
  {
    hide Unallocated, Allowed, Step, Last;
    if ops != [] {
      StepShort(w, ops[0]);
      var v := Step(w, ops[0]);
      if |v.segs| == |w.segs| { RunShort(v, ops[1..]); } else { RunGrows(v, ops[1..]); }
    }
  }

  lemma StepGrows(w: Log, op: Op)
    requires Allowed(w, op)
    ensures Step(w, op).segs != [] && |w.segs| <= |Step(w, op).segs|
  {
    hide Encode, WriteAt, SizeOf, DropCount;
  }

  lemma {:induction false} RunGrows(w: Log, ops: seq<Op>)
    requires RunAllowed(w, ops)
    ensures |w.segs| <= |RunOps(w, ops).segs|
    decreases |ops|
  {
    hide Allowed, Step;
    if ops != [] {
      StepGrows(w, ops[0]);
      RunGrows(Step(w, ops[0]), ops[1..]);
    }
  }

  lemma FlushedFirst(imgs: seq<seq<byte>>, k: nat, n: nat)
    requires k <= |imgs| && |Concat(imgs[..k])| <= n
    ensures k <= Whole(imgs, n)
  {
    hide Concat, Whole;
    WholeIs(imgs, n);
  }

  /**
   A run on a file that was never allocated, and then a crash: the directory is
   refused for want of room, however much scratch there is, if and only if the
   crash left a header without all of its record. Any other opens without
   complaint, with every record that is whole, and so with every flushed one.
   */
  lemma ShortCrash(w: Log, ops: seq<Op>, from: nat, dir: seq<File>, scratch: nat)
    requires Unallocated(w) && RunAllowed(w, ops) && |RunOps(w, ops).segs| == |w.segs| && scratch >= MAX_SIZE
    requires CutLeaves(RunOps(w, ops), from, dir)
    ensures var v := RunOps(w, ops);
      var k, n, imgs := |v.segs| - 1, |dir[|dir| - 1].bytes|, Last(v).images;
      && OpenFrom(dir, v.cap, scratch, v.segs[from].base) == CutAnswer(ImagesOf(v.segs[from..k]), imgs, n)
      && 0 <= v.durable + 1 - Last(v).base <= Whole(imgs, n)
  {
    hide RunOps, RunAllowed, Unallocated, OpenFrom, CutAnswer, ImagesOf, Whole, Files;
    RunShort(w, ops);
    assert Unallocated(RunOps(w, ops));
    ShortCut(RunOps(w, ops), from, dir, scratch);
  }

  lemma ShortCut(v: Log, from: nat, dir: seq<File>, scratch: nat)
    requires Unallocated(v) && CutLeaves(v, from, dir) && scratch >= MAX_SIZE
    ensures var k, n, imgs := |v.segs| - 1, |dir[|dir| - 1].bytes|, Last(v).images;
      && OpenFrom(dir, v.cap, scratch, v.segs[from].base) == CutAnswer(ImagesOf(v.segs[from..k]), imgs, n)
      && 0 <= v.durable + 1 - Last(v).base <= Whole(imgs, n)
  {
    hide Chain, AllEndClean, OpenFrom, Concat, Dense, Zeros, Files, ImagesOf, CutAnswer, Whole;
    var k, bytes, imgs := |v.segs| - 1, dir[|dir| - 1].bytes, Last(v).images;
    FlushedFirst(imgs, v.durable + 1 - Last(v).base, |bytes|);
    FilledFrom(v, from);
    var segs := Filled(v)[from..];
    assert bytes == Concat(imgs)[..|bytes|];
    DirIs(dir, Files(v.segs[from..k]), File(Last(v).base, bytes));
    CutOpens(segs, v.cap, scratch, imgs, |bytes|);
  }

  lemma FilledFrom(v: Log, from: nat)
    requires Unallocated(v) && from < |v.segs|
    ensures var segs := Filled(v)[from..];
      && Chain(segs, v.cap) && AllEndClean(segs, v.cap) && |segs| == |v.segs| - from
      && segs[..|segs| - 1] == v.segs[from..|v.segs| - 1] && segs[|segs| - 1].base == Last(v).base
      && segs[0].base == v.segs[from].base
  {
    hide Chain, AllEndClean, Concat, Dense, Zeros;
    ChainFrom(Filled(v), v.cap, from);
    EndsFrom(Filled(v), v.cap, from);
  }

  /**
   And it comes to that: from an empty file one record is appended, and every
   length the crash may cut it to is refused from its header on until it is
   whole.
   */
  lemma FirstCut(cap: nat, scratch: nat, r: Rec, n: nat)
    requires Dirty.LARGE <= cap && n <= Dirty.LARGE && scratch >= MAX_SIZE
    ensures OpenFrom([File(1, [])], cap, scratch, 1) == Ok(Opened([[]], false))
    ensures |Dirty.Image(r)| == Dirty.LARGE
    ensures var w := Reopened([File(1, [])], cap, Opened([[]], false));
      && w == Dirty.Empty(cap, []) && Unallocated(w)
      && (var (v, res) := Append(w, Dirty.Large(r), Dirty.Ones(64), MAX_SIZE);
          res == Ok(1) && CutLeaves(v, 0, [File(1, Dirty.Image(r)[..n])]))
    ensures OpenFrom([File(1, Dirty.Image(r)[..n])], cap, scratch, 1)
         == if n < HEADER then Ok(Opened([[]], false)) else if n < Dirty.LARGE then Err(NoMemory)
            else Ok(Opened([[Dirty.Image(r)]], false))
  {
    hide Append, Dirty.Image, OpenFrom, Chain, AllEndClean, Concat, Unallocated, Zeros;
    FirstShort(cap, scratch);
    FirstLong(cap, scratch, r, n);
  }

  lemma FirstShort(cap: nat, scratch: nat)
    requires HEADER <= cap && scratch >= MAX_SIZE
    ensures OpenFrom([File(1, [])], cap, scratch, 1) == Ok(Opened([[]], false))
    ensures var w := Reopened([File(1, [])], cap, Opened([[]], false));
      w == Dirty.Empty(cap, []) && Unallocated(w)
    ensures Chain([Seg(1, [], Zeros(cap))], cap) && AllEndClean([Seg(1, [], Zeros(cap))], cap)
  {
    hide Zeros;
    FirstChain(cap);
    EmptyScan([], cap, scratch, 1);
    hide Chain, AllEndClean, ScanFrom, Unallocated, Reopened;
    FirstReopens(cap, []);
  }

  lemma FirstChain(cap: nat)
    ensures Chain([Seg(1, [], Zeros(cap))], cap) && AllEndClean([Seg(1, [], Zeros(cap))], cap)
  {
    hide Zeros, Concat;
    EmptyRun(Zeros(cap), cap, 0, 1);
    hide IsRun;
  }

  lemma FirstReopens(cap: nat, none: seq<Seg>)
    requires none == []
    ensures var w := Reopened([File(1, [])], cap, Opened([[]], false));
      w == Dirty.Empty(cap, []) && Unallocated(w)
  {
    hide Chain, AllEndClean, Unallocated, Zeros, Reopened;
    FirstChain(cap);
    assert none + [Seg(1, [], Zeros(cap))] == [Seg(1, [], Zeros(cap))] && none + [Seg(1, [], [])] == [Seg(1, [], [])];
    assert Files(none) + [File(1, [])] == [File(1, [])] && ImagesOf(none) + [[]] == [[]];
    ReopensEmpty(none, 1, cap, [File(1, [])]);
    EmptyLast(none, 1, cap, Reopened([File(1, [])], cap, Opened([[]], false)));
  }

  lemma FirstLong(cap: nat, scratch: nat, r: Rec, n: nat)
    requires Dirty.LARGE <= cap && n <= Dirty.LARGE && scratch >= MAX_SIZE
    ensures |Dirty.Image(r)| == Dirty.LARGE
    ensures var (v, res) := Append(Dirty.Empty(cap, []), Dirty.Large(r), Dirty.Ones(64), MAX_SIZE);
      res == Ok(1) && CutLeaves(v, 0, [File(1, Dirty.Image(r)[..n])])
    ensures OpenFrom([File(1, Dirty.Image(r)[..n])], cap, scratch, 1)
         == if n < HEADER then Ok(Opened([[]], false)) else if n < Dirty.LARGE then Err(NoMemory)
            else Ok(Opened([[Dirty.Image(r)]], false))
  {
    Dirty.WholeBytes(r);
    hide OpenFrom, Append, Dirty.Image, CutLeaves, IsRecordAt;
    FirstAppend(cap, r, n);
    FirstOpens(cap, scratch, Dirty.Image(r), n, []);
  }

  lemma FirstAppend(cap: nat, r: Rec, n: nat)
    requires Dirty.LARGE <= cap && n <= |Dirty.Image(r)|
    ensures var (v, res) := Append(Dirty.Empty(cap, []), Dirty.Large(r), Dirty.Ones(64), MAX_SIZE);
      res == Ok(1) && CutLeaves(v, 0, [File(1, Dirty.Image(r)[..n])])
  {
    hide Append, Encode, WriteAt, Concat, CutLeaves, SizeOf;
    var img := Dirty.Image(r);
    Dirty.FirstWrite(cap, [], Dirty.Large(r), Dirty.Ones(64));
    WriteAtEnd([], img);
    assert [] + img == img;
    OneCut(Log(cap, [Seg(1, [img], img)], 0, |img|, 0, 0), img, n);
  }

  lemma OneCut(v: Log, img: seq<byte>, n: nat)
    requires |v.segs| == 1 && v.gone == 0 && Last(v) == Seg(1, [img], img) && v.syncedOff == 0 && n <= |img|
    ensures CutLeaves(v, 0, [File(1, img[..n])])
  {
    assert v.segs[0..0] == [];
    assert Files([]) == [];
  }

  lemma FirstOpens(cap: nat, scratch: nat, img: seq<byte>, n: nat, none: seq<Seg>)
    requires HEADER <= cap && |img| <= cap && n <= |img| && IsRecordAt(img, 1) && scratch >= MAX_SIZE && none == []
    ensures OpenFrom([File(1, img[..n])], cap, scratch, 1)
         == if n < HEADER then Ok(Opened([[]], false)) else if n < |img| then Err(NoMemory)
            else Ok(Opened([[img]], false))
  {
    hide OpenFrom, Chain, AllEndClean, Concat, Zeros, IsRecordAt, Files, ImagesOf, CutAnswer, Whole;
    RecordIsLong(img, 1);
    FirstChain(cap);
    ConcatOne(img);
    var segs := [Seg(1, [], Zeros(cap))];
    assert segs[..0] == none;
    CutOpens(segs, cap, scratch, [img], n);
    NothingBeside(none, File(1, img[..n]));
    FirstAnswer(img, n, ImagesOf(none));
  }

  lemma NothingBeside(none: seq<Seg>, f: File)
    requires none == []
    ensures Files(none) + [f] == [f] && ImagesOf(none) == []
  {}

  lemma FirstAnswer(img: seq<byte>, n: nat, none: seq<seq<seq<byte>>>)
    requires n <= |img| && |img| >= HEADER && none == []
    ensures CutAnswer(none, [img], n)
         == if n < HEADER then Ok(Opened([[]], false)) else if n < |img| then Err(NoMemory)
            else Ok(Opened([[img]], false))
  {
    hide Concat;
    ConcatOne(img);
    ConcatNone([img][..0]);
    assert [img][..1] == [img] && [img][1..] == [] && [img][..0] == [];
    var j := Whole([img], n);
    assert j == if n < |img| then 0 else 1;
    assert none + [[img][..j]] == [[img][..j]];
  }
}
