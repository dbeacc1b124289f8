/**
 One segment of the log: a preallocated file holding a contiguous run of
 records, and the recovery scan that finds where the run ends.
 */
module Segment {
  import opened Bytes
  import opened Record
  import opened Wrappers

  // ---- the scan, one record at a time ----

  /** Why a scan stops: unwritten space, a record it must drop, or a record
      its buffer or the file cannot supply whole. */
  datatype Stop = Clean | Torn | NoRoom

  datatype Probe = Found(img: seq<byte>) | Halt(stop: Stop)

  /** A scan's outcome: the records taken, where they end, and why there. */
  datatype Scan = Scan(images: seq<seq<byte>>, end: nat, stop: Stop)

  function Limit(file: seq<byte>, cap: nat): nat {
    if |file| < cap then |file| else cap
  }

  /** A header reads the same from the slice that holds just it. */
  lemma DecodeSlice(file: seq<byte>, off: nat, n: nat)
    requires HEADER <= n && off + n <= |file|
    ensures Decode(file[off..off + n]) == Decode(file[off..off + HEADER])
  {
    hide Decode;
    DecodePrefix(file[off..off + n], file[off..off + HEADER]);
  }

  /** What stands at `off` when sequence `expected` is due there. */
  function ProbeAt(file: seq<byte>, cap: nat, scratch: nat, off: nat, expected: nat): (p: Probe)
    requires off <= Limit(file, cap)
    ensures p.Found? ==> 0 < |p.img| && off + |p.img| <= Limit(file, cap)
  {
    hide Decode, SizeOf, Verify, IsRecordAt;
    if Limit(file, cap) - off < HEADER then Halt(Clean)
    else
      var r := Decode(file[off..off + HEADER]);
      if IsEnd(r) then Halt(Clean)
      else if SizeOf(r) == 0 || off + SizeOf(r) > cap then Halt(Torn)
      else if SizeOf(r) > scratch || off + SizeOf(r) > |file| then Halt(NoRoom)
      else
        var img := file[off..off + SizeOf(r)];
        if !Verify(img, r) || r.seqno != expected then Halt(Torn) else Found(img)
  }

  /** What is found is the whole record that was due. */
  lemma ProbeFound(file: seq<byte>, cap: nat, scratch: nat, off: nat, expected: nat)
    requires off <= Limit(file, cap) && ProbeAt(file, cap, scratch, off, expected).Found?
    ensures var img := ProbeAt(file, cap, scratch, off, expected).img;
      && off + |img| <= |file| && img == file[off..off + |img|] && |img| >= HEADER && IsRecordAt(img, expected)
  {
    hide Decode, SizeOf, Verify, IsRecordAt;
    var r := Decode(file[off..off + HEADER]);
    SizeLong(r);
    DecodeSlice(file, off, SizeOf(r));
    FoundRecord(file[off..off + SizeOf(r)], r);
  }

  lemma SizeLong(r: Rec)
    ensures SizeOf(r) == 0 || HEADER <= SizeOf(r)
  {}

  lemma FoundRecord(img: seq<byte>, r: Rec)
    requires |img| >= HEADER && Decode(img) == r && SizeOf(r) == |img| && Verify(img, r)
    ensures IsRecordAt(img, r.seqno)
  {
    hide Decode, SizeOf, Verify;
  }

  /** Take records until one fails. */
  function ScanFrom(file: seq<byte>, cap: nat, scratch: nat, off: nat, expected: nat): (s: Scan)
    requires off <= Limit(file, cap)
    ensures off <= s.end <= Limit(file, cap)
    decreases cap - off
  {
    match ProbeAt(file, cap, scratch, off, expected)
    case Halt(stop) => Scan([], off, stop)
    case Found(img) =>
      var rest := ScanFrom(file, cap, scratch, off + |img|, expected + 1);
      Scan([img] + rest.images, rest.end, rest.stop)
  }

  /** imgs stand back to back from `off`, densely numbered from `first`. */
  ghost predicate IsRun(file: seq<byte>, cap: nat, off: nat, first: nat, imgs: seq<seq<byte>>) {
    && off + |Concat(imgs)| <= Limit(file, cap)
    && file[off..off + |Concat(imgs)|] == Concat(imgs)
    && forall i :: 0 <= i < |imgs| ==> IsRecordAt(imgs[i], first + i)
  }

  /** Nothing but unwritten space, or no room for a header, at `off`. */
  predicate CleanAt(file: seq<byte>, cap: nat, off: nat)
    requires off <= Limit(file, cap)
  {
    Limit(file, cap) - off < HEADER || IsEnd(Decode(file[off..off + HEADER]))
  }

  lemma RunTail(file: seq<byte>, cap: nat, off: nat, first: nat, imgs: seq<seq<byte>>)
    requires imgs != [] && IsRun(file, cap, off, first, imgs)
    ensures off + |imgs[0]| <= Limit(file, cap) && imgs[0] == file[off..off + |imgs[0]|]
    ensures IsRun(file, cap, off + |imgs[0]|, first + 1, imgs[1..])
  {
    hide IsRecordAt;
    var whole := Concat(imgs);
    var part := file[off..off + |whole|];
    assert part == imgs[0] + Concat(imgs[1..]);
    assert part[..|imgs[0]|] == file[off..off + |imgs[0]|];
    assert part[|imgs[0]|..] == file[off + |imgs[0]|..off + |whole|];
    assert forall i :: 0 <= i < |imgs[1..]| ==> imgs[1..][i] == imgs[i + 1];
  }

  lemma RunCons(file: seq<byte>, cap: nat, off: nat, first: nat, img: seq<byte>, rest: seq<seq<byte>>)
    requires off + |img| <= Limit(file, cap) && img == file[off..off + |img|]
    requires IsRecordAt(img, first) && IsRun(file, cap, off + |img|, first + 1, rest)
    ensures IsRun(file, cap, off, first, [img] + rest)
  {
    hide IsRecordAt;
    assert ([img] + rest)[1..] == rest;
    assert file[off..off + |img| + |Concat(rest)|]
        == file[off..off + |img|] + file[off + |img|..off + |img| + |Concat(rest)|];
  }

  /** What a scan takes is a run ending where it says. */
  lemma {:induction false} ScanIsRun(file: seq<byte>, cap: nat, scratch: nat, off: nat, expected: nat)
    requires off <= Limit(file, cap)
    ensures var s := ScanFrom(file, cap, scratch, off, expected);
      IsRun(file, cap, off, expected, s.images) && s.end == off + |Concat(s.images)|
    decreases cap - off
  {
    hide IsRecordAt, IsRun, ProbeAt;
    match ProbeAt(file, cap, scratch, off, expected) {
      case Halt(_) => EmptyRun(file, cap, off, expected);
      case Found(img) =>
        ProbeFound(file, cap, scratch, off, expected);
        ScanIsRun(file, cap, scratch, off + |img|, expected + 1);
        var rest := ScanFrom(file, cap, scratch, off + |img|, expected + 1);
        RunCons(file, cap, off, expected, img, rest.images);
        ConcatCons(img, rest.images);
    }
  }

  lemma ConcatCons(img: seq<byte>, rest: seq<seq<byte>>)
    ensures Concat([img] + rest) == img + Concat(rest)
  {
    assert ([img] + rest)[1..] == rest;
  }

  lemma EmptyRun(file: seq<byte>, cap: nat, off: nat, expected: nat)
    requires off <= Limit(file, cap)
    ensures IsRun(file, cap, off, expected, []) && Concat([]) == []
  {}

  /** A record that stands at `off` is what the probe finds there. */
  lemma ProbeFinds(file: seq<byte>, cap: nat, scratch: nat, off: nat, expected: nat, img: seq<byte>)
    requires scratch >= MAX_SIZE && 0 < expected
    requires off + |img| <= Limit(file, cap) && img == file[off..off + |img|]
    requires IsRecordAt(img, expected)
    ensures ProbeAt(file, cap, scratch, off, expected) == Found(img)
  {
    hide Decode, Crc32c.Sum;
    assert img[..HEADER] == file[off..off + HEADER];
    DecodePrefix(img, file[off..off + HEADER]);
  }

  /** Every run is a prefix of what the scan takes: the scan is the longest. */
  lemma {:induction false} ScanIsLongest(file: seq<byte>, cap: nat, scratch: nat, off: nat, expected: nat,
                                         imgs: seq<seq<byte>>)
    requires scratch >= MAX_SIZE && 0 < expected && off <= Limit(file, cap)
    requires IsRun(file, cap, off, expected, imgs)
    ensures var s := ScanFrom(file, cap, scratch, off, expected);
      |imgs| <= |s.images| && s.images[..|imgs|] == imgs
    decreases |imgs|
  {
    hide IsRecordAt, ProbeAt;
    if imgs != [] {
      RunTail(file, cap, off, expected, imgs);
      assert IsRecordAt(imgs[0], expected + 0);
      ProbeFinds(file, cap, scratch, off, expected, imgs[0]);
      ScanIsLongest(file, cap, scratch, off + |imgs[0]|, expected + 1, imgs[1..]);
      assert imgs == [imgs[0]] + imgs[1..];
    }
  }

  /** A header stands at `off` that names more bytes than the file has, though no more than the segment may. */
  predicate CutShort(file: seq<byte>, cap: nat, off: nat)
    requires off <= Limit(file, cap)
  {
    && Limit(file, cap) - off >= HEADER
    && var r := Decode(file[off..off + HEADER]);
       !IsEnd(r) && SizeOf(r) != 0 && off + SizeOf(r) <= cap && off + SizeOf(r) > |file|
  }

  lemma ProbeStops(file: seq<byte>, cap: nat, scratch: nat, off: nat, expected: nat)
    requires off <= Limit(file, cap)
    ensures CleanAt(file, cap, off) ==> ProbeAt(file, cap, scratch, off, expected) == Halt(Clean)
    ensures scratch >= MAX_SIZE ==>
      && (ProbeAt(file, cap, scratch, off, expected) == Halt(NoRoom) <==> CutShort(file, cap, off))
      && ProbeAt(file, cap, scratch, off, expected) == ProbeAt(file, cap, MAX_SIZE, off, expected)
      && (ProbeAt(file, cap, scratch, off, expected) == Halt(Clean) <==> CleanAt(file, cap, off))
  {
    hide Decode, Crc32c.Sum;
  }

  /** A run that ends in unwritten space is exactly what the scan takes. */
  lemma {:induction false} ScanExact(file: seq<byte>, cap: nat, scratch: nat, off: nat, expected: nat,
                                     imgs: seq<seq<byte>>)
    requires scratch >= MAX_SIZE && 0 < expected && off <= Limit(file, cap)
    requires IsRun(file, cap, off, expected, imgs)
    requires CleanAt(file, cap, off + |Concat(imgs)|)
    ensures ScanFrom(file, cap, scratch, off, expected) == Scan(imgs, off + |Concat(imgs)|, Clean)
    decreases |imgs|
  {
    hide IsRecordAt, CleanAt, ProbeAt;
    if imgs == [] {
      ProbeStops(file, cap, scratch, off, expected);
    } else {
      RunTail(file, cap, off, expected, imgs);
      assert IsRecordAt(imgs[0], expected + 0);
      ProbeFinds(file, cap, scratch, off, expected, imgs[0]);
      ScanExact(file, cap, scratch, off + |imgs[0]|, expected + 1, imgs[1..]);
      assert imgs == [imgs[0]] + imgs[1..];
    }
  }

  /**
   With scratch for the largest record, what it holds beyond that changes
   nothing. The scan then fails for room exactly when a record it comes to is
   cut short by the end of the file, so never on a file of full capacity; and it
   reports no damage exactly when what follows the run is unwritten space.
   */
  lemma {:induction false} ScanNeverShort(file: seq<byte>, cap: nat, scratch: nat, off: nat, expected: nat)
    requires scratch >= MAX_SIZE && off <= Limit(file, cap)
    ensures var s := ScanFrom(file, cap, scratch, off, expected);
      && (s.stop == NoRoom <==> CutShort(file, cap, s.end))
      && (cap <= |file| ==> s.stop != NoRoom)
      && s == ScanFrom(file, cap, MAX_SIZE, off, expected)
      && (s.stop == Clean <==> CleanAt(file, cap, s.end))
    decreases cap - off
  {
    hide IsRecordAt, CleanAt, ProbeAt, CutShort;
    ProbeStops(file, cap, scratch, off, expected);
    NotCut(file, cap, off);
    match ProbeAt(file, cap, scratch, off, expected) {
      case Halt(_) =>
      case Found(img) => ScanNeverShort(file, cap, scratch, off + |img|, expected + 1);
    }
  }

  lemma NotCut(file: seq<byte>, cap: nat, off: nat)
    requires off <= Limit(file, cap)
    ensures CutShort(file, cap, off) ==> |file| < cap
  {
    hide Decode, SizeOf;
  }

  // ---- runs grow at the end ----

  lemma WriteAtEnds(s: seq<byte>, off: nat, t: seq<byte>)
    requires off <= |s|
    ensures off + |t| <= |WriteAt(s, off, t)|
    ensures WriteAt(s, off, t)[0..off + |t|] == s[0..off] + t
  {}

  lemma RunAppend(file: seq<byte>, cap: nat, first: nat, imgs: seq<seq<byte>>, img: seq<byte>)
    requires IsRun(file, cap, 0, first, imgs)
    requires IsRecordAt(img, first + |imgs|) && |Concat(imgs)| + |img| <= cap
    ensures |Concat(imgs)| <= |file|
    ensures IsRun(WriteAt(file, |Concat(imgs)|, img), cap, 0, first, imgs + [img])
    ensures Concat(imgs + [img]) == Concat(imgs) + img
  {
    hide IsRecordAt, Concat, WriteAt;
    ConcatAppend(imgs, [img]);
    ConcatOne(img);
    WriteAtEnds(file, |Concat(imgs)|, img);
    WriteAtLength(file, |Concat(imgs)|, img);
  }

  lemma WriteAtLength(s: seq<byte>, off: nat, t: seq<byte>)
    requires off <= |s|
    ensures |WriteAt(s, off, t)| == if off + |t| <= |s| then |s| else off + |t|
  {}

  lemma {:induction false} RunPrefix(file: seq<byte>, cap: nat, first: nat, imgs: seq<seq<byte>>, n: nat)
    requires n <= |imgs| && IsRun(file, cap, 0, first, imgs)
    ensures IsRun(file, cap, 0, first, imgs[..n]) && |Concat(imgs[..n])| <= |Concat(imgs)|
    ensures n < |imgs| ==> |Concat(imgs[..n])| < |Concat(imgs)|
  {
    hide IsRecordAt, Concat;
    assert imgs == imgs[..n] + imgs[n..];
    ConcatAppend(imgs[..n], imgs[n..]);
    var m := |Concat(imgs[..n])|;
    assert file[0..m] == file[0..|Concat(imgs)|][..m];
    if n < |imgs| {
      assert IsRecordAt(imgs[n], first + n) && imgs[n..] == [imgs[n]] + imgs[n + 1..];
      RecordIsLong(imgs[n], first + n);
      ConcatCons(imgs[n], imgs[n + 1..]);
    }
  }

  lemma RecordIsLong(img: seq<byte>, n: nat)
    requires IsRecordAt(img, n)
    ensures |img| >= HEADER
  {}

  lemma RecordFacts(img: seq<byte>, n: nat)
    requires IsRecordAt(img, n)
    ensures |img| >= HEADER && Decode(img).seqno == n && SizeOf(Decode(img)) == |img|
  {
    hide Crc32c.Sum, FromLe;
  }

  /** Bytes written where a file ends make it longer by just them. */
  lemma WriteAtEnd(s: seq<byte>, t: seq<byte>)
    ensures WriteAt(s, |s|, t) == s + t
  {}

  // ---- the segment ----

  class Segment {
    var file: seq<byte>       // the bytes behind the descriptor
    var base: nat
    var nextSeq: nat
    var durableSeq: nat
    var capacity: nat
    var writeOff: nat
    var syncedOff: nat
    ghost var images: seq<seq<byte>>    // the records below writeOff

    ghost predicate Valid()
      reads this
    {
      && 0 < base && HEADER <= capacity
      && IsRun(file, capacity, 0, base, images)
      && nextSeq == base + |images|
      && writeOff == |Concat(images)|
      && base <= durableSeq + 1 <= nextSeq
      && syncedOff == |Concat(images[..durableSeq + 1 - base])|
    }

    /** Fresh state over a file: nothing written, nothing durable. */
    constructor Reset(base: nat, capacity: nat, file: seq<byte>)
      requires 0 < base && HEADER <= capacity
      ensures Valid() && images == [] && this.file == file
      ensures this.base == base && this.capacity == capacity
    {
      this.file, this.base, this.capacity := file, base, capacity;
      nextSeq, durableSeq := base, base - 1;
      writeOff, syncedOff := 0, 0;
      images := [];
    }

    /** A new segment: preallocated, hence all zeros. */
    static method Create(base: nat, capacity: nat) returns (r: Result<Segment>)
      ensures r.Err? <==> base == 0 || capacity < HEADER
      ensures r.Err? ==> r.error == Invalid
      ensures r.Ok? ==> fresh(r.value) && r.value.Valid() && r.value.images == []
      ensures r.Ok? ==> r.value.file == Zeros(capacity)
      ensures r.Ok? ==> r.value.base == base && r.value.capacity == capacity
    {
      if base == 0 || capacity < HEADER {
        return Err(Invalid);
      }
      var s := new Segment.Reset(base, capacity, Zeros(capacity));
      r := Ok(s);
    }

    /**
     The block-wise scan. It computes what the one-record-at-a-time scan
     does, hands every accepted record to the caller in order, and fails only
     where that scan has no room for a record.
     */
    method Recover(scratch: array<byte>) returns (r: Result<bool>, seen: seq<seq<byte>>)
      requires Valid()
      modifies this, scratch
      ensures base == old(base) && capacity == old(capacity) && file == old(file)
      ensures scratch.Length < HEADER <==> r == Err(Invalid)
      ensures r.Err? ==> unchanged(this) && (r.error == Invalid || r.error == NoMemory)
      ensures r.Ok? ==> syncedOff == writeOff
      ensures scratch.Length >= HEADER ==>
        var s := ScanFrom(file, capacity, scratch.Length, 0, base);
        && seen == s.images
        && (r == Err(NoMemory) <==> s.stop == NoRoom)
        && (r.Ok? ==> r.value == (s.stop == Torn))
        && (r.Ok? ==> Valid() && images == s.images && writeOff == s.end && durableSeq + 1 == nextSeq)
    {
      hide ProbeAt, IsRecordAt, IsRun, ScanFrom, Prepend;
      seen := [];
      if scratch.Length < HEADER {
        return Err(Invalid), [];
      }
      var off: nat, expected := 0, base;
      var end := More;
      ghost var whole := ScanFrom(file, capacity, scratch.Length, 0, base);
      PrependNothing(whole);
      while off < capacity && end.More?
        invariant off <= Limit(file, capacity) && expected == base + |seen|
        invariant unchanged(this)
        invariant end.Done? ==> whole == Scan(seen, off, end.why)
        invariant end.More? ==> whole == Prepend(seen, ScanFrom(file, capacity, scratch.Length, off, expected))
        decreases end.More?, capacity - off
      {
        var want := if scratch.Length > capacity - off then capacity - off else scratch.Length;
        var n := if want > |file| - off then |file| - off else want;
        MemPut(scratch, 0, file[off..off + n]);
        var block := scratch[..n];
        if n < HEADER {
          Exhausted(file, capacity, scratch.Length, off, expected, seen);
          end := Done(Clean);
        } else {
          var taken, pos;
          taken, pos, end := ScanBlock(block, off, capacity, expected, file, scratch.Length);
          PrependTwice(seen, taken, ScanFrom(file, capacity, scratch.Length, off + pos, expected + |taken|));
          PrependScan(seen, taken, off + pos);
          seen := seen + taken;
          off := off + pos;
          expected := expected + |taken|;
        }
      }
      if end.More? {
        Exhausted(file, capacity, scratch.Length, off, expected, seen);
        end := Done(Clean);
      }
      if end.why == NoRoom {
        return Err(NoMemory), seen;
      }
      ScanIsRun(file, capacity, scratch.Length, 0, base);
      nextSeq, durableSeq := expected, expected - 1;
      writeOff, syncedOff := off, off;
      images := seen;
      assert images[..|images|] == images;
      r := Ok(end.why == Torn);
    }

    /** Whether a record with this payload still fits. */
    method Fits(payloadLen: int) returns (fits: bool)
      ensures fits <==> Size(payloadLen) != 0 && writeOff + Size(payloadLen) <= capacity
    {
      var size := Size(payloadLen);
      fits := size != 0 && writeOff + size <= capacity;
    }

    /**
     Append one record under the next sequence. Nothing is written unless the
     record can be encoded and fits. A file that is no longer than its records,
     as one that was never allocated is, stays so.
     */
    method Append(r: Rec, payload: seq<byte>, scratch: array<byte>) returns (res: Result<()>, out: Rec)
      requires Valid() && nextSeq < U64_LIMIT
      requires SizeOf(r) != 0 ==> |payload| == r.len
      modifies this, scratch
      ensures Valid()
      ensures base == old(base) && capacity == old(capacity)
      ensures durableSeq == old(durableSeq) && syncedOff == old(syncedOff)
      ensures out.seqno == old(nextSeq)
      ensures res == Err(NoMemory) <==> SizeOf(r) == 0 || scratch.Length < SizeOf(r)
      ensures res == Err(Storage) <==> 0 < SizeOf(r) <= scratch.Length && old(writeOff) + SizeOf(r) > capacity
      ensures res.Err? ==> unchanged(this) && (res.error == NoMemory || res.error == Storage)
      ensures res.Ok? ==>
        var img := Encode(r.(seqno := old(nextSeq)), payload);
        && out == Decode(img)
        && images == old(images) + [img]
        && old(writeOff) <= old(|file|) && file == WriteAt(old(file), old(writeOff), img)
        && (old(file == Concat(images)) ==> file == Concat(images))
    {
      hide IsRun, Encode, Sealed, IsRecordAt, Canonical, Decode, WriteAt, Payload;
      var rec := r.(seqno := nextSeq);
      var total;
      total, out := EncodeInto(scratch, rec, payload);
      if total == 0 {
        return Err(NoMemory), out;
      }
      if writeOff + total > capacity {
        SealedSeqno(rec, payload);
        return Err(Storage), out;
      }
      ghost var img := Encode(rec, payload);
      EncodedAt(rec, payload);
      SealedSeqno(rec, payload);
      assert scratch[..total] == img;
      WriteAtEnd(file, img);
      RunAppend(file, capacity, base, images, img);
      WriteAtLength(file, writeOff, img);
      file := WriteAt(file, writeOff, scratch[..total]);
      writeOff := writeOff + total;
      nextSeq := nextSeq + 1;
      assert (images + [img])[..durableSeq + 1 - base] == images[..durableSeq + 1 - base];
      images := images + [img];
      res := Ok(());
    }

    /** Flush what was appended; nothing outstanding means nothing to do. */
    method Sync()
      requires Valid()
      modifies this
      ensures Valid()
      ensures syncedOff == writeOff && durableSeq + 1 == nextSeq
      ensures base == old(base) && capacity == old(capacity) && file == old(file) && images == old(images)
    {
      hide IsRun;
      assert images[..|images|] == images;
      if syncedOff == writeOff {
        NothingOutstanding(this);
        return;
      }
      syncedOff := writeOff;
      durableSeq := nextSeq - 1;
    }
  }

  /** Every flushed byte is covered exactly when every appended record is. */
  lemma NothingOutstanding(s: Segment)
    requires s.Valid()
    ensures s.syncedOff == s.writeOff <==> s.durableSeq + 1 == s.nextSeq
  {
    hide IsRun;
    var n := s.durableSeq + 1 - s.base;
    RunPrefix(s.file, s.capacity, s.base, s.images, n);
    assert s.images[..|s.images|] == s.images;
  }

  lemma EncodedAt(r: Rec, payload: seq<byte>)
    requires |payload| == r.len <= MAX_PAYLOAD
    ensures IsRecordAt(Encode(r, payload), r.seqno) && Decode(Encode(r, payload)) == Sealed(r, payload)
  {
    hide Encode, IsRecord;
    EncodeDecodes(r, payload);
    assert IsRecord(Encode(r, payload)) by { CanonicalIsRecord(Encode(r, payload)); }
  }

  lemma CanonicalIsRecord(img: seq<byte>)
    requires Canonical(img)
    ensures IsRecord(img)
  {
    hide IsRecord;
  }

  lemma SealedSeqno(r: Rec, payload: seq<byte>)
    requires |payload| == r.len <= MAX_PAYLOAD
    ensures Sealed(r, payload).seqno == r.seqno
  {
    hide Crc32c.Sum;
  }

  // ---- the scan inside one block ----

  /** What the record at `pos` of a block read at `off` calls for. */
  datatype BlockStep = Take(size: nat) | Stop(why: Stop) | Refill

  function StepInBlock(block: seq<byte>, off: nat, pos: nat, cap: nat, expected: nat): BlockStep
    requires pos + HEADER <= |block|
  {
    var rec := Decode(block[pos..]);
    if IsEnd(rec) then Stop(Clean)
    else if SizeOf(rec) == 0 || off + pos + SizeOf(rec) > cap then Stop(Torn)
    else if pos + SizeOf(rec) > |block| then Refill
    else if !Verify(block[pos..], rec) || rec.seqno != expected then Stop(Torn)
    else Take(SizeOf(rec))
  }

  method Examine(block: seq<byte>, off: nat, pos: nat, cap: nat, expected: nat) returns (step: BlockStep)
    requires pos + HEADER <= |block|
    ensures step == StepInBlock(block, off, pos, cap, expected)
  {
    var rec := Decode(block[pos..]);
    if IsEnd(rec) {
      return Stop(Clean);
    }
    var size := Size(ToInt32(rec.len));
    if size == 0 || off + pos + size > cap {
      return Stop(Torn);
    }
    if pos + size > |block| {
      return Refill;
    }
    var ok := VerifyRecord(block[pos..], rec);
    if !ok || rec.seqno != expected {
      return Stop(Torn);
    }
    step := Take(size);
  }

  function Prepend(got: seq<seq<byte>>, s: Scan): Scan {
    Scan(got + s.images, s.end, s.stop)
  }

  lemma PrependNothing(s: Scan)
    ensures Prepend([], s) == s
  {}

  lemma PrependTwice(a: seq<seq<byte>>, b: seq<seq<byte>>, s: Scan)
    ensures Prepend(a, Prepend(b, s)) == Prepend(a + b, s)
  {
    assert a + (b + s.images) == (a + b) + s.images;
  }

  lemma PrependScan(a: seq<seq<byte>>, b: seq<seq<byte>>, end: nat)
    ensures forall why :: Prepend(a, Scan(b, end, why)) == Scan(a + b, end, why)
  {}

  /** How a block ends: with records still to read for, or for good. */
  datatype BlockEnd = More | Done(why: Stop)

  /**
   The records of one block, until the block runs out or one of them ends the
   scan. A block that leaves more to read has used up at least one record.
   */
  method ScanBlock(block: seq<byte>, off: nat, cap: nat, first: nat, ghost file: seq<byte>, ghost scratch: nat)
      returns (taken: seq<seq<byte>>, pos: nat, end: BlockEnd)
    requires HEADER <= |block| <= scratch && off + |block| <= Limit(file, cap)
    requires block == file[off..off + |block|]
    requires |block| == scratch || off + |block| == Limit(file, cap)
    ensures pos <= |block| && (end == More ==> 0 < pos)
    ensures end == More ==>
      ScanFrom(file, cap, scratch, off, first)
      == Prepend(taken, ScanFrom(file, cap, scratch, off + pos, first + |taken|))
    ensures end.Done? ==> ScanFrom(file, cap, scratch, off, first) == Scan(taken, off + pos, end.why)
    ensures end.Done? && end.why == NoRoom ==> pos == 0
  {
    hide ProbeAt, StepInBlock, ScanFrom, Prepend;
    taken, pos, end := [], 0, More;
    PrependNothing(ScanFrom(file, cap, scratch, off, first));
    while pos + HEADER <= |block|
      invariant pos <= |block|
      invariant ScanFrom(file, cap, scratch, off, first)
             == Prepend(taken, ScanFrom(file, cap, scratch, off + pos, first + |taken|))
    {
      var step := Examine(block, off, pos, cap, first + |taken|);
      StepScans(file, cap, scratch, off, block, pos, first + |taken|);
      PrependScan(taken, [], off + pos);
      assert taken + [] == taken;
      match step
      case Stop(why) =>
        return taken, pos, Done(why);
      case Refill =>
        if pos == 0 {
          return taken, pos, Done(NoRoom);
        }
        return taken, pos, More;
      case Take(size) =>
        var img := block[pos..pos + size];
        PrependTwice(taken, [img], ScanFrom(file, cap, scratch, off + pos + size, first + |taken| + 1));
        taken := taken + [img];
        pos := pos + size;
    }
  }

  lemma StepScans(file: seq<byte>, cap: nat, scratch: nat, off: nat, block: seq<byte>, pos: nat, expected: nat)
    requires off + |block| <= Limit(file, cap) && block == file[off..off + |block|]
    requires |block| == scratch || off + |block| == Limit(file, cap)
    requires |block| <= scratch && pos + HEADER <= |block|
    ensures var s := ScanFrom(file, cap, scratch, off + pos, expected);
      match StepInBlock(block, off, pos, cap, expected)
      case Take(size) =>
        && pos + size <= |block| && HEADER <= size
        && s == Prepend([block[pos..pos + size]], ScanFrom(file, cap, scratch, off + pos + size, expected + 1))
      case Stop(why) => why != NoRoom && s == Scan([], off + pos, why)
      case Refill => pos == 0 ==> s == Scan([], off, NoRoom)
  {
    hide ProbeAt, StepInBlock, IsRecordAt;
    StepMatches(file, cap, scratch, off, block, pos, expected);
  }

  lemma VerifyLonger(a: seq<byte>, b: seq<byte>, r: Rec)
    requires SizeOf(r) <= |a| && SizeOf(r) <= |b| && a[..SizeOf(r)] == b[..SizeOf(r)]
    ensures Verify(a, r) == Verify(b, r)
  {
    hide Crc32c.Sum;
    if SizeOf(r) != 0 {
      assert a[4..SizeOf(r)] == a[..SizeOf(r)][4..] && b[4..SizeOf(r)] == b[..SizeOf(r)][4..];
    }
  }

  lemma BlockSlice(file: seq<byte>, off: nat, n: nat, pos: nat, m: nat)
    requires off + n <= |file| && pos + m <= n
    ensures file[off..off + n][pos..][..m] == file[off + pos..off + pos + m]
    ensures file[off..off + n][pos..pos + m] == file[off + pos..off + pos + m]
  {}

  lemma StepMatches(file: seq<byte>, cap: nat, scratch: nat, off: nat, block: seq<byte>, pos: nat, expected: nat)
    requires off + |block| <= Limit(file, cap) && block == file[off..off + |block|]
    requires |block| == scratch || off + |block| == Limit(file, cap)
    requires |block| <= scratch && pos + HEADER <= |block|
    ensures var p := ProbeAt(file, cap, scratch, off + pos, expected);
      match StepInBlock(block, off, pos, cap, expected)
      case Take(size) => pos + size <= |block| && HEADER <= size && p == Found(block[pos..pos + size])
      case Stop(why) => why != NoRoom && p == Halt(why)
      case Refill => pos == 0 ==> p == Halt(NoRoom)
  {
    hide Crc32c.Sum, Decode, Verify;
    var rec := Decode(block[pos..]);
    BlockSlice(file, off, |block|, pos, HEADER);
    DecodePrefix(block[pos..], file[off + pos..off + pos + HEADER]);
    var size := SizeOf(rec);
    if size != 0 && pos + size <= |block| {
      BlockSlice(file, off, |block|, pos, size);
      VerifyLonger(block[pos..], block[pos..pos + size], rec);
    }
  }

  lemma Exhausted(file: seq<byte>, cap: nat, scratch: nat, off: nat, expected: nat, seen: seq<seq<byte>>)
    requires off <= Limit(file, cap) && Limit(file, cap) - off < HEADER
    ensures Prepend(seen, ScanFrom(file, cap, scratch, off, expected)) == Scan(seen, off, Clean)
  {
    assert seen + [] == seen;
  }
}
