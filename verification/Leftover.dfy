/**
 What a reopening finds past the log: left-over records that carry the next
 sequences. Exactly what comes back, when nothing does, and a crash after which
 one write is stored twice on a single node.
 */
module Leftover {
  import opened Bytes
  import opened Record
  import opened Wrappers
  import opened Segment
  import opened Store
  import opened Recovery
  import Dirty
  import Stream
  import SessionLog

  // ---- exactly what comes back ----

  /** The scan over a run is the run, and then the scan of what stands behind it. */
  lemma {:induction false} ScanSplits(file: seq<byte>, cap: nat, scratch: nat, off: nat, expected: nat,
                                      imgs: seq<seq<byte>>)
    requires scratch >= MAX_SIZE && 0 < expected && off <= Limit(file, cap) && IsRun(file, cap, off, expected, imgs)
    ensures off + |Concat(imgs)| <= Limit(file, cap)
    ensures ScanFrom(file, cap, scratch, off, expected)
         == Prepend(imgs, ScanFrom(file, cap, scratch, off + |Concat(imgs)|, expected + |imgs|))
    decreases |imgs|
  {
    hide IsRecordAt, ProbeAt;
    if imgs == [] {
      PrependNothing(ScanFrom(file, cap, scratch, off, expected));
    } else {
      RunTail(file, cap, off, expected, imgs);
      assert IsRecordAt(imgs[0], expected + 0);
      ProbeFinds(file, cap, scratch, off, expected, imgs[0]);
      ScanSplits(file, cap, scratch, off + |imgs[0]|, expected + 1, imgs[1..]);
      var rest := ScanFrom(file, cap, scratch, off + |Concat(imgs)|, expected + |imgs|);
      assert [imgs[0]] + imgs[1..] == imgs;
      PrependTwice([imgs[0]], imgs[1..], rest);
    }
  }

  lemma ChainInit(segs: seq<Seg>, cap: nat)
    requires |segs| > 1 && Chain(segs, cap) && AllEndClean(segs, cap)
    ensures Chain(segs[..|segs| - 1], cap) && AllEndClean(segs[..|segs| - 1], cap)
  {
    hide SegOk, EndsClean;
    var t := segs[..|segs| - 1];
    forall i | 0 <= i < |t| - 1
      ensures Link(t, i)
    {
      assert Link(segs, i);
    }
  }

  /** The records a reopening takes for the ones after the last. */
  ghost function Extra(w: Log): seq<seq<byte>>
    requires w.segs != [] && w.writeOff <= Limit(Last(w).file, w.cap)
  {
    ScanFrom(Last(w).file, w.cap, MAX_SIZE, w.writeOff, Next(w)).images
  }

  lemma LastPlace(w: Log, k: nat)
    requires Placed(w) && k <= |Last(w).images|
    ensures SegOk(Last(w), w.cap) && 0 < Last(w).base && Limit(Last(w).file, w.cap) == w.cap == |Last(w).file|
    ensures |Concat(Last(w).images[..k])| <= w.writeOff <= w.cap && Last(w).images[..|Last(w).images|] == Last(w).images
    ensures IsRun(Last(w).file, w.cap, 0, Last(w).base, Last(w).images[..k])
  {
    hide Chain, IsRecordAt, Concat;
    LastOk(w);
    var s := Last(w);
    RunPrefix(s.file, w.cap, s.base, s.images, k);
  }

  /** The records of the log, from segment `from` on, up to record k of the last one. */
  function UpTo(w: Log, from: nat, k: nat): seq<seq<byte>>
    requires from < |w.segs| && k <= |Last(w).images|
  {
    Flat(w.segs[from..|w.segs| - 1]) + Last(w).images[..k]
  }

  /** The directory after a crash opens as the finished segments, and the last file scanned anew. */
  lemma CrashOpens(w: Log, from: nat, dir: seq<File>, scratch: nat)
    requires Good(w) && CrashLeaves(w, from, dir) && scratch >= MAX_SIZE
    ensures var r := OpenFrom(dir, w.cap, scratch, w.segs[from].base);
      && r.Ok?
      && Flatten(r.value.images)
         == Flat(w.segs[from..|w.segs| - 1])
            + ScanFrom(dir[|dir| - 1].bytes, w.cap, scratch, 0, Last(w).base).images
  {
    hide Chain, AllEndClean, ScanFrom, OpenFrom, Concat, Files, ImagesOf, Flat, Flatten;
    var segs, n, bytes := w.segs[from..], |w.segs| - from - 1, dir[|dir| - 1].bytes;
    EndsFrom(w.segs, w.cap, from);
    ChainFrom(w.segs, w.cap, from);
    assert w.segs[from..|w.segs| - 1] == segs[..n];
    assert dir == Files(segs[..n]) + [File(segs[n].base, bytes)];
    OpenChain(segs, w.cap, scratch, bytes);
    ScanNeverShort(bytes, w.cap, scratch, 0, segs[n].base);
    FlattenImages(segs[..n], ScanFrom(bytes, w.cap, scratch, 0, segs[n].base).images);
  }

  /** As far as the last file still is as it was written, that scan takes the same records, and goes on from there. */
  lemma KeptScan(w: Log, bytes: seq<byte>, scratch: nat, k: nat)
    requires Placed(w) && |bytes| == w.cap && scratch >= MAX_SIZE && k <= |Last(w).images|
    requires var off := |Concat(Last(w).images[..k])|;
      off <= |bytes| && off <= |Last(w).file| && bytes[..off] == Last(w).file[..off]
    ensures var off, base := |Concat(Last(w).images[..k])|, Last(w).base;
      && off <= Limit(bytes, w.cap)
      && ScanFrom(bytes, w.cap, scratch, 0, base).images
         == Last(w).images[..k] + ScanFrom(bytes, w.cap, scratch, off, base + k).images
  {
    hide Chain, ScanFrom, IsRecordAt, Concat;
    LastPlace(w, k);
    var kept := Last(w).images[..k];
    var off := |Concat(kept)|;
    assert bytes[0..off] == bytes[..off] && Last(w).file[0..off] == Last(w).file[..off];
    assert IsRun(bytes, w.cap, 0, Last(w).base, kept);
    ScanSplits(bytes, w.cap, scratch, 0, Last(w).base, kept);
  }

  /**
   What a crash leaves is a restart of the log: the records that are still on
   the disk as they were written, flushed or not, and behind them whatever the
   scan goes on to find there.
   */
  lemma CrashIsRestart(w: Log, from: nat, dir: seq<File>, scratch: nat, k: nat)
    requires Good(w) && CrashLeaves(w, from, dir) && scratch >= MAX_SIZE && k <= |Last(w).images|
    requires var off := |Concat(Last(w).images[..k])|;
      off <= |dir[|dir| - 1].bytes| && off <= |Last(w).file| && dir[|dir| - 1].bytes[..off] == Last(w).file[..off]
    ensures var r, off := OpenFrom(dir, w.cap, scratch, w.segs[from].base), |Concat(Last(w).images[..k])|;
      && r.Ok? && off <= Limit(dir[|dir| - 1].bytes, w.cap)
      && Flatten(r.value.images)
         == UpTo(w, from, k) + ScanFrom(dir[|dir| - 1].bytes, w.cap, scratch, off, Last(w).base + k).images
  {
    hide Chain, AllEndClean, ScanFrom, OpenFrom, Concat, Flat, Flatten, Files;
    var bytes := dir[|dir| - 1].bytes;
    CrashOpens(w, from, dir, scratch);
    KeptScan(w, bytes, scratch, k);
    var rest := ScanFrom(bytes, w.cap, scratch, |Concat(Last(w).images[..k])|, Last(w).base + k).images;
    var before := Flat(w.segs[from..|w.segs| - 1]);
    assert before + (Last(w).images[..k] + rest) == (before + Last(w).images[..k]) + rest;
  }

  lemma LinkedIs(w: Log)
    requires Placed(w)
    ensures UpTo(w, w.gone, |Last(w).images|) == Records(w, w.gone)
  {
    hide Chain, Concat;
    var segs := Linked(w);
    FlatSetLast(segs, Last(w));
    assert segs[..|segs| - 1] == w.segs[w.gone..|w.segs| - 1];
    assert Last(w).images[..|Last(w).images|] == Last(w).images;
  }

  /**
   A restart with everything on disk brings back the log and, past it, exactly
   what the scan finds from the write offset on: nothing if and only if no
   record stands there that verifies and carries the next sequence.
   */
  lemma ComesBack(w: Log, scratch: nat)
    requires Good(w) && scratch >= MAX_SIZE
    ensures w.writeOff <= Limit(Last(w).file, w.cap)
    ensures var r := OpenFrom(Files(Linked(w)), w.cap, scratch, FirstSeq(w));
      r.Ok? && Flatten(r.value.images) == Records(w, w.gone) + Extra(w)
    ensures Extra(w) == [] <==> !ProbeAt(Last(w).file, w.cap, MAX_SIZE, w.writeOff, Next(w)).Found?
    ensures TailClean(w) ==> Extra(w) == []
  {
    hide Chain, AllEndClean, OpenFrom, IsRecordAt, Concat, ProbeAt, AllZero;
    var dir := Files(Linked(w));
    LastPlace(w, |Last(w).images|);
    LastPlace(w, w.durable + 1 - Last(w).base);
    assert dir[..|dir| - 1] == Files(w.segs[w.gone..|w.segs| - 1]);
    CrashIsRestart(w, w.gone, dir, scratch, |Last(w).images|);
    LinkedIs(w);
    ScanNeverShort(Last(w).file, w.cap, scratch, w.writeOff, Next(w));
    if TailClean(w) {
      ZeroIsClean(Last(w).file, w.cap, w.writeOff);
      ProbeStops(Last(w).file, w.cap, MAX_SIZE, w.writeOff, Next(w));
    }
  }

  // ---- from a clean tail nothing comes back ----

  /** Each byte not yet flushed is on the disk as written, or as it was before. */
  ghost predicate Mixed(w: Log, bytes: seq<byte>)
    requires w.segs != []
  {
    && Scrambled(w, bytes) && |Last(w).file| == w.cap
    && forall i :: w.syncedOff <= i < w.cap ==> bytes[i] == Last(w).file[i] || bytes[i] == 0
  }

  /** No half-written record passes its own checks: what is found where record j was is record j. */
  ghost predicate Telling(w: Log, bytes: seq<byte>)
    requires w.segs != []
  {
    forall j :: 0 <= j < |Last(w).images| && |Concat(Last(w).images[..j])| <= Limit(bytes, w.cap) ==>
      var p := ProbeAt(bytes, w.cap, MAX_SIZE, |Concat(Last(w).images[..j])|, Last(w).base + j);
      p.Found? ==> p.img == Last(w).images[j]
  }

  /** What is recovered after such a crash from a clean tail was appended: nothing else comes back. */
  lemma CleanCrash(w: Log, bytes: seq<byte>, scratch: nat)
    requires Placed(w) && TailClean(w) && Mixed(w, bytes) && Telling(w, bytes) && scratch >= MAX_SIZE
    ensures ScanFrom(bytes, w.cap, scratch, 0, Last(w).base).images <= Last(w).images
  {
    hide Chain, Telling, IsRecordAt, ProbeAt, ScanFrom;
    LastPlace(w, 0);
    assert Last(w).images[..0] == [];
    ScanNeverShort(bytes, w.cap, scratch, 0, Last(w).base);
    CleanScan(w, bytes, 0);
    assert Last(w).images[0..] == Last(w).images;
  }

  lemma {:induction false} CleanScan(w: Log, bytes: seq<byte>, j: nat)
    requires Placed(w) && TailClean(w) && Mixed(w, bytes) && Telling(w, bytes) && j <= |Last(w).images|
    ensures |Concat(Last(w).images[..j])| <= Limit(bytes, w.cap)
    ensures
      ScanFrom(bytes, w.cap, MAX_SIZE, |Concat(Last(w).images[..j])|, Last(w).base + j).images <= Last(w).images[j..]
    decreases |Last(w).images| - j
  {
    hide Placed, Telling, IsRun, CleanAt, ProbeAt, Concat, AllZero;
    LastPlace(w, j);
    assert Scrambled(w, bytes) && |bytes| == w.cap;
    var imgs, off := Last(w).images, |Concat(Last(w).images[..j])|;
    var p := ProbeAt(bytes, w.cap, MAX_SIZE, off, Last(w).base + j);
    if j == |imgs| {
      LastStops(w, bytes);
    } else if p.Found? {
      TellsAt(w, bytes, j);
      NextOffset(imgs, j);
      CleanScan(w, bytes, j + 1);
      assert imgs[j..] == [imgs[j]] + imgs[j + 1..];
    }
  }

  /** Where the records end there is nothing. */
  lemma LastStops(w: Log, bytes: seq<byte>)
    requires Placed(w) && TailClean(w) && Mixed(w, bytes)
    ensures |Concat(Last(w).images[..|Last(w).images|])| <= Limit(bytes, w.cap)
    ensures ProbeAt(bytes, w.cap, MAX_SIZE, |Concat(Last(w).images[..|Last(w).images|])|,
                    Last(w).base + |Last(w).images|) == Halt(Stop.Clean)
  {
    hide Chain, IsRun, ProbeAt, Concat, AllZero, CleanAt;
    LastPlace(w, |Last(w).images|);
    LastPlace(w, w.durable + 1 - Last(w).base);
    ZeroTail(w, bytes);
    ZeroIsClean(bytes, w.cap, w.writeOff);
    ProbeStops(bytes, w.cap, MAX_SIZE, w.writeOff, Last(w).base + |Last(w).images|);
  }

  lemma TellsAt(w: Log, bytes: seq<byte>, j: nat)
    requires w.segs != [] && Telling(w, bytes) && j < |Last(w).images|
    requires |Concat(Last(w).images[..j])| <= Limit(bytes, w.cap)
    ensures var p := ProbeAt(bytes, w.cap, MAX_SIZE, |Concat(Last(w).images[..j])|, Last(w).base + j);
      p.Found? ==> p.img == Last(w).images[j]
  {
    hide ProbeAt, Concat;
  }

  lemma NextOffset(imgs: seq<seq<byte>>, j: nat)
    requires j < |imgs|
    ensures |Concat(imgs[..j + 1])| == |Concat(imgs[..j])| + |imgs[j]|
  {
    hide Concat;
    assert imgs[..j + 1] == imgs[..j] + [imgs[j]];
    ConcatAppend(imgs[..j], [imgs[j]]);
    ConcatOne(imgs[j]);
  }

  lemma ZeroTail(w: Log, bytes: seq<byte>)
    requires w.segs != [] && TailClean(w) && Mixed(w, bytes) && w.syncedOff <= w.writeOff
    ensures w.writeOff <= |bytes| && AllZero(bytes[w.writeOff..])
  {
    var tail := bytes[w.writeOff..];
    forall i | 0 <= i < |tail|
      ensures tail[i] == 0
    {
      assert tail[i] == bytes[w.writeOff + i];
      assert Last(w).file[w.writeOff..][i] == Last(w).file[w.writeOff + i];
    }
  }

  /** Each record is on the disk whole, or not at all. */
  ghost predicate Wholes(w: Log, bytes: seq<byte>)
    requires w.segs != []
  {
    forall j :: 0 <= j < |Last(w).images| ==>
      var off, img := |Concat(Last(w).images[..j])|, Last(w).images[j];
      && off + |img| <= |bytes|
      && (bytes[off..off + |img|] == img || AllZero(bytes[off..off + |img|]))
  }

  /** Crashes that keep or lose whole records are of that kind. */
  lemma WholesTell(w: Log, bytes: seq<byte>)
    requires Placed(w) && |bytes| == w.cap && Wholes(w, bytes)
    ensures Telling(w, bytes)
  {
    hide Chain, ProbeAt, Concat, Wholes, AllZero, IsRun;
    var imgs := Last(w).images;
    forall j | 0 <= j < |imgs| && |Concat(imgs[..j])| <= Limit(bytes, w.cap)
      ensures var p := ProbeAt(bytes, w.cap, MAX_SIZE, |Concat(imgs[..j])|, Last(w).base + j);
        p.Found? ==> p.img == imgs[j]
    {
      WholeTells(w, bytes, j);
    }
  }

  lemma WholeTells(w: Log, bytes: seq<byte>, j: nat)
    requires Placed(w) && |bytes| == w.cap && Wholes(w, bytes) && j < |Last(w).images|
    requires |Concat(Last(w).images[..j])| <= Limit(bytes, w.cap)
    ensures var p := ProbeAt(bytes, w.cap, MAX_SIZE, |Concat(Last(w).images[..j])|, Last(w).base + j);
      p.Found? ==> p.img == Last(w).images[j]
  {
    hide Chain, ProbeAt, Concat, IsRecordAt;
    LastPlace(w, |Last(w).images|);
    var off, img := |Concat(Last(w).images[..j])|, Last(w).images[j];
    assert IsRecordAt(img, Last(w).base + j);
    if bytes[off..off + |img|] == img {
      ProbeFinds(bytes, w.cap, MAX_SIZE, off, Last(w).base + j, img);
    } else {
      RecordIsLong(img, Last(w).base + j);
      ZeroHeader(bytes, w.cap, off, |img|);
      ProbeStops(bytes, w.cap, MAX_SIZE, off, Last(w).base + j);
    }
  }

  lemma ZeroHeader(file: seq<byte>, cap: nat, off: nat, n: nat)
    requires off + n <= Limit(file, cap) && n >= HEADER && AllZero(file[off..off + n])
    ensures CleanAt(file, cap, off)
  {
    var h := file[off..off + HEADER];
    assert forall k :: 0 <= k < HEADER ==> h[k] == file[off..off + n][k];
    FromLeZero(h[16..24]);
  }

  /**
   From clean tails, any run and then a crash that half-writes nothing that
   passes for whole: what the directory opens into begins with every flushed
   record and is a beginning of what was appended. Nothing else comes back.
   */
  lemma NothingComesBack(w: Log, ops: seq<Op>, from: nat, dir: seq<File>, scratch: nat)
    requires Good(w) && TailClean(w) && RunAllowed(w, ops) && scratch >= MAX_SIZE
    requires var v := RunOps(w, ops);
      CrashLeaves(v, from, dir) && Mixed(v, dir[|dir| - 1].bytes) && Telling(v, dir[|dir| - 1].bytes)
    ensures var v := RunOps(w, ops);
      var r := OpenFrom(dir, v.cap, scratch, v.segs[from].base);
      r.Ok? && 0 <= Flushed(v, from) <= |Flatten(r.value.images)| && Flatten(r.value.images) <= Records(v, from)
  {
    RunThenCrash(w, ops, from, dir, scratch);
    RunGood(w, ops);
    hide RunOps, RunAllowed;
    Beginning(RunOps(w, ops), from, dir, scratch);
  }

  lemma Beginning(v: Log, from: nat, dir: seq<File>, scratch: nat)
    requires Good(v) && TailClean(v) && CrashLeaves(v, from, dir) && scratch >= MAX_SIZE
    requires Mixed(v, dir[|dir| - 1].bytes) && Telling(v, dir[|dir| - 1].bytes)
    ensures var r := OpenFrom(dir, v.cap, scratch, v.segs[from].base);
      r.Ok? && Flatten(r.value.images) <= Records(v, from)
  {
    hide Chain, AllEndClean, ScanFrom, OpenFrom, IsRecordAt, Concat, Telling, TailClean;
    var imgs, bytes := Last(v).images, dir[|dir| - 1].bytes;
    ConcatNothing(imgs);
    CrashIsRestart(v, from, dir, scratch, 0);
    CleanCrash(v, bytes, scratch);
    var got := ScanFrom(bytes, v.cap, scratch, 0, Last(v).base).images;
    FlatSetLast(v.segs[from..], Last(v));
    assert v.segs[from..][..|v.segs| - from - 1] == v.segs[from..|v.segs| - 1];
    assert imgs[..0] + got == got;
    Appended(Flat(v.segs[from..|v.segs| - 1]), got, imgs);
  }

  lemma ConcatNothing(imgs: seq<seq<byte>>)
    ensures Concat(imgs[..0]) == [] && imgs[..0] == []
  {}

  lemma Appended(a: seq<seq<byte>>, b: seq<seq<byte>>, c: seq<seq<byte>>)
    requires b <= c
    ensures a + b <= a + c && a + [] + b == a + b
  {}

  // ---- one write stored twice on one node ----

  const SMALL: nat := 56

  /** A record without a payload, as it is stored under sequence n. */
  function Image(r: Rec, n: u64): (s: seq<byte>)
    ensures |s| == SMALL
  {
    Encode(Dirty.Small(r).(seqno := n), [])
  }

  lemma ImageIs(r: Rec, n: u64)
    ensures IsRecordAt(Image(r, n), n) && SizeOf(Dirty.Small(r)) == SMALL
    ensures Stream.SentOf(Image(r, n)) == SessionLog.Sent(r.session, r.clientSeq)
  {
    EncodedAt(Dirty.Small(r).(seqno := n), []);
    EncodeDecodes(Dirty.Small(r).(seqno := n), []);
    hide Encode, Decode, Verify;
  }

  /** A log of one segment with these records at the front of its file. */
  function One(cap: nat, imgs: seq<seq<byte>>, file: seq<byte>, synced: nat, durable: nat): Log {
    Log(cap, [Seg(1, imgs, file)], 0, |Concat(imgs)|, synced, durable)
  }

  lemma AppendsSmall(cap: nat, imgs: seq<seq<byte>>, file: seq<byte>, synced: nat, durable: nat, r: Rec)
    requires |file| == cap && |Concat(imgs)| + SMALL <= cap && |imgs| + 1 < U64_LIMIT
    ensures var w, img := One(cap, imgs, file, synced, durable), Image(r, |imgs| + 1);
      Append(w, Dirty.Small(r), [], MAX_SIZE)
      == (One(cap, imgs + [img], WriteAt(file, |Concat(imgs)|, img), synced, durable), Ok(|imgs| + 1))
  {
    hide Encode, WriteAt, Concat, Write, IsRecordAt, SizeOf, Roll, Stream.SentOf;
    var w, img := One(cap, imgs, file, synced, durable), Image(r, |imgs| + 1);
    ImageIs(r, |imgs| + 1);
    ConcatAppend(imgs, [img]);
    ConcatOne(img);
    OneWritten(w, w.segs[0], img);
    assert RollIfFull(w, SMALL) == w;
  }

  lemma OneWritten(w: Log, s: Seg, img: seq<byte>)
    requires w.segs == [s] && w.writeOff <= |s.file|
    ensures Write(w, img)
         == w.(segs := [Seg(s.base, s.images + [img], WriteAt(s.file, w.writeOff, img))],
               writeOff := w.writeOff + |img|)
  {
    hide WriteAt;
    assert w.segs[..0] + [Seg(s.base, s.images + [img], WriteAt(s.file, w.writeOff, img))]
        == [Seg(s.base, s.images + [img], WriteAt(s.file, w.writeOff, img))];
  }

  /** Three places for small records, and zeros behind them. */
  function Three(a: seq<byte>, b: seq<byte>, c: seq<byte>, cap: nat): (s: seq<byte>)
    requires |a| == |b| == |c| == SMALL && 3 * SMALL <= cap
    ensures |s| == cap
  {
    a + b + c + Zeros(cap - 3 * SMALL)
  }

  lemma ThreeWritten(a: seq<byte>, b: seq<byte>, c: seq<byte>, x: seq<byte>, cap: nat)
    requires |a| == |b| == |c| == |x| == SMALL && 3 * SMALL <= cap
    ensures WriteAt(Three(a, b, c, cap), 0, x) == Three(x, b, c, cap)
    ensures WriteAt(Three(a, b, c, cap), SMALL, x) == Three(a, x, c, cap)
    ensures WriteAt(Three(a, b, c, cap), 2 * SMALL, x) == Three(a, b, x, cap)
    ensures Three(a, b, c, cap)[0..SMALL] == a && Three(a, b, c, cap)[SMALL..2 * SMALL] == b
    ensures Three(a, b, c, cap)[0..3 * SMALL] == a + b + c && Three(a, b, c, cap)[3 * SMALL..] == Zeros(cap - 3 * SMALL)
  {
    hide Zeros;
  }

  lemma ThreeZeros(cap: nat)
    requires 3 * SMALL <= cap
    ensures Three(Zeros(SMALL), Zeros(SMALL), Zeros(SMALL), cap) == Zeros(cap)
  {}

  lemma ConcatFew(a: seq<byte>, b: seq<byte>, c: seq<byte>)
    ensures Concat([]) == [] && Concat([a]) == a && Concat([a, b]) == a + b && Concat([a, b, c]) == a + b + c
  {
    ConcatOne(a);
    ConcatOne(b);
    ConcatAppend([a], [b]);
    ConcatAppend([a, b], [c]);
    ConcatOne(c);
    assert [a] + [b] == [a, b] && [a, b] + [c] == [a, b, c];
  }

  /** Two kept and flushed is what an opening makes of it: the first record, and no more. */
  lemma OpensOne(a: seq<byte>, c: seq<byte>, cap: nat, scratch: nat)
    requires IsRecordAt(a, 1) && |a| == |c| == SMALL && 3 * SMALL <= cap && scratch >= MAX_SIZE
    ensures OpenFrom([File(1, Three(a, Zeros(SMALL), c, cap))], cap, scratch, 1) == Ok(Opened([[a]], false))
  {
    hide IsRecordAt, Three, Zeros, ScanFrom, CleanAt, Concat;
    var file := Three(a, Zeros(SMALL), c, cap);
    ThreeWritten(a, Zeros(SMALL), c, a, cap);
    ConcatFew(a, a, a);
    ZeroHeader(file, cap, SMALL, SMALL);
    ScanExact(file, cap, scratch, 0, 1, [a]);
  }

  /** Three records back to back, numbered on, are all taken, whichever of them were meant. */
  lemma OpensThree(a: seq<byte>, b: seq<byte>, c: seq<byte>, cap: nat, scratch: nat)
    requires IsRecordAt(a, 1) && IsRecordAt(b, 2) && IsRecordAt(c, 3) && |a| == |b| == |c| == SMALL
    requires 3 * SMALL <= cap && scratch >= MAX_SIZE
    ensures OpenFrom([File(1, Three(a, b, c, cap))], cap, scratch, 1) == Ok(Opened([[a, b, c]], false))
  {
    hide IsRecordAt, Three, Zeros, ScanFrom, CleanAt, Concat;
    var file := Three(a, b, c, cap);
    ThreeWritten(a, b, c, a, cap);
    ConcatFew(a, b, c);
    ZeroIsClean(file, cap, 3 * SMALL);
    ScanExact(file, cap, scratch, 0, 1, [a, b, c]);
  }

  /** The first is flushed, the other two are not; the crash loses the second and keeps the third. */
  lemma LostAndKept(cap: nat, first: Rec, other: Rec, again: Rec)
    requires 3 * SMALL <= cap
    ensures var (w1, r1) := Append(One(cap, [], Zeros(cap), 0, 0), Dirty.Small(first), [], MAX_SIZE);
      var bytes := Three(Image(first, 1), Zeros(SMALL), Image(again, 3), cap);
      && r1 == Ok(1) && w1.segs != [] && w1.writeOff <= |Last(w1).file|
      && var (w2, r2) := Append(Sync(w1), Dirty.Small(other), [], MAX_SIZE);
         && r2 == Ok(2) && w2.segs != [] && w2.writeOff <= |Last(w2).file| && Next(w2) < U64_LIMIT
         && var (w3, r3) := Append(w2, Dirty.Small(again), [], MAX_SIZE);
            && r3 == Ok(3) && CrashLeaves(w3, 0, [File(1, bytes)]) && Mixed(w3, bytes)
  {
    hide Image, Append, WriteAt, Three, Zeros, Concat;
    var a, b, c, z := Image(first, 1), Image(other, 2), Image(again, 3), Zeros(SMALL);
    ConcatFew(a, b, c);
    ThreeZeros(cap);
    ThreeWritten(z, z, z, a, cap);
    ThreeWritten(a, z, z, b, cap);
    ThreeWritten(a, b, z, c, cap);
    AppendsSmall(cap, [], Zeros(cap), 0, 0, first);
    assert [] + [a] == [a] && [a] + [b] == [a, b] && [a, b] + [c] == [a, b, c];
    AppendsSmall(cap, [a], Three(a, z, z, cap), SMALL, 1, other);
    AppendsSmall(cap, [a, b], Three(a, b, z, cap), SMALL, 1, again);
    MixedBytes(a, b, c, cap);
    assert Files([]) == [];
  }

  lemma MixedBytes(a: seq<byte>, b: seq<byte>, c: seq<byte>, cap: nat)
    requires |a| == |b| == |c| == SMALL && 3 * SMALL <= cap
    ensures Three(a, Zeros(SMALL), c, cap)[..SMALL] == Three(a, b, c, cap)[..SMALL]
    ensures forall i :: 0 <= i < cap ==>
      Three(a, Zeros(SMALL), c, cap)[i] == Three(a, b, c, cap)[i] || Three(a, Zeros(SMALL), c, cap)[i] == 0
  {}

  /**
   A write is stored twice on one node, with no replica anywhere. Three writes,
   the first flushed; a crash loses the second and keeps the third. The
   directory opens with the first alone and no damage reported. The third
   write's client sends it again, it takes the second's place and is flushed;
   and the next opening takes the copy that was left behind it for the record
   that comes next.
   */
  lemma LeftoverComesBack(cap: nat, scratch: nat, first: Rec, other: Rec, again: Rec)
    requires 3 * SMALL <= cap && scratch >= MAX_SIZE
    ensures var dir := [File(1, Three(Image(first, 1), Zeros(SMALL), Image(again, 3), cap))];
      && OpenFrom(dir, cap, scratch, 1) == Ok(Opened([[Image(first, 1)]], false))
      && var v := Reopened(dir, cap, Opened([[Image(first, 1)]], false));
         && Good(v) && v.segs != [] && v.writeOff <= |Last(v).file| && Next(v) < U64_LIMIT
         && var (u, r) := Append(v, Dirty.Small(again), [], MAX_SIZE);
            && r == Ok(2) && u.segs != [] && u.gone == 0
            && OpenFrom(Files(Linked(Sync(u))), cap, scratch, 1)
               == Ok(Opened([[Image(first, 1), Image(again, 2), Image(again, 3)]], false))
    ensures Stream.SentOf(Image(again, 2)) == Stream.SentOf(Image(again, 3))
  {
    hide Image, Append, WriteAt, Three, Zeros, OpenFrom, Concat, Good, Stream.SentOf, Reopened, One;
    FirstOpening(cap, scratch, first, again);
    ResentAndOpened(cap, scratch, first, again);
    ImageIs(again, 2);
    ImageIs(again, 3);
  }

  /** The log the crash leaves: the first record, and a copy of the third further on. */
  function Left(cap: nat, first: Rec, again: Rec): Log
    requires 3 * SMALL <= cap
  {
    One(cap, [Image(first, 1)], Three(Image(first, 1), Zeros(SMALL), Image(again, 3), cap), SMALL, 1)
  }

  lemma FirstOpening(cap: nat, scratch: nat, first: Rec, again: Rec)
    requires 3 * SMALL <= cap && scratch >= MAX_SIZE
    ensures var dir := [File(1, Three(Image(first, 1), Zeros(SMALL), Image(again, 3), cap))];
      && OpenFrom(dir, cap, scratch, 1) == Ok(Opened([[Image(first, 1)]], false))
      && Reopened(dir, cap, Opened([[Image(first, 1)]], false)) == Left(cap, first, again)
      && Good(Left(cap, first, again))
  {
    hide Image, Three, Zeros, OpenFrom, Concat, Good;
    var a, c := Image(first, 1), Image(again, 3);
    var file := Three(a, Zeros(SMALL), c, cap);
    ImageIs(first, 1);
    hide IsRecordAt;
    OpensOne(a, c, cap, scratch);
    OpensOne(a, c, cap, MAX_SIZE);
    ReopenGood([File(1, file)], cap, MAX_SIZE);
    ReopensOne(a, file, cap);
  }

  lemma ResentAndOpened(cap: nat, scratch: nat, first: Rec, again: Rec)
    requires 3 * SMALL <= cap && scratch >= MAX_SIZE
    ensures var v := Left(cap, first, again);
      && v.segs != [] && v.writeOff <= |Last(v).file| && Next(v) < U64_LIMIT && v.gone <= |v.segs|
      && var (u, r) := Append(v, Dirty.Small(again), [], MAX_SIZE);
         && r == Ok(2) && u.segs != [] && u.gone == 0
         && OpenFrom(Files(Linked(Sync(u))), cap, scratch, 1)
            == Ok(Opened([[Image(first, 1), Image(again, 2), Image(again, 3)]], false))
  {
    hide Image, Append, WriteAt, Three, Zeros, OpenFrom, Concat, IsRecordAt, SizeOf, Stream.SentOf;
    var a, b, c := Image(first, 1), Image(again, 2), Image(again, 3);
    ImageIs(first, 1);
    ImageIs(again, 2);
    ImageIs(again, 3);
    ConcatFew(a, b, c);
    AppendsSmall(cap, [a], Three(a, Zeros(SMALL), c, cap), SMALL, 1, again);
    ThreeWritten(a, Zeros(SMALL), c, b, cap);
    assert [a] + [b] == [a, b];
    OpensThree(a, b, c, cap, scratch);
    var u := Append(Left(cap, first, again), Dirty.Small(again), [], MAX_SIZE).0;
    FilesOne(Sync(u), Seg(1, [a, b], Three(a, b, c, cap)));
  }

  lemma FilesOne(w: Log, s: Seg)
    requires w.segs == [s] && w.gone == 0
    ensures Files(Linked(w)) == [File(s.base, s.file)]
  {
    assert w.segs[0..] == w.segs;
  }

  lemma ReopensOne(a: seq<byte>, file: seq<byte>, cap: nat)
    requires |a| == SMALL
    ensures Reopened([File(1, file)], cap, Opened([[a]], false)) == One(cap, [a], file, SMALL, 1)
  {
    ConcatOne(a);
    assert SegsOf([File(1, file)], [[a]]) == [Seg(1, [a], file)];
  }
}
