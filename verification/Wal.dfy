/**
 The write-ahead log: a directory of segments, one of them active, with the
 table of their bases and the key index kept beside it.
 */
module Wal {
  import opened Bytes
  import opened Record
  import opened Wrappers
  import opened SegTable
  import opened Store
  import opened Recovery
  import Segment
  import KeyIndex

  /** Real records only: what an index may be told about. */
  ghost predicate Headed(imgs: seq<seq<byte>>) {
    forall i :: 0 <= i < |imgs| ==> |imgs[i]| >= HEADER && Decode(imgs[i]).seqno > 0
  }

  /** The headers of a sequence of records. */
  ghost function Heads(imgs: seq<seq<byte>>): (hs: seq<Rec>)
    requires Headed(imgs)
    ensures |hs| == |imgs|
  {
    seq(|imgs|, i requires 0 <= i < |imgs| => Decode(imgs[i]))
  }

  /** The active segment's fields are those of the last segment of the log. */
  ghost predicate Mirrors(s: Segment.Segment, w: Log)
    reads s
    requires w.segs != []
  {
    && s.base == Last(w).base && s.images == Last(w).images && s.file == Last(w).file
    && s.capacity == w.cap && s.writeOff == w.writeOff && s.syncedOff == w.syncedOff
    && s.durableSeq as int == w.durable && s.nextSeq == Next(w)
  }

  /** Every finished segment's file is where a descriptor on it would find it. */
  ghost predicate HoldsFinished(files: map<nat, seq<byte>>, w: Log) {
    forall i :: 0 <= i < |w.segs| - 1 ==> w.segs[i].base in files && files[w.segs[i].base] == w.segs[i].file
  }

  class Wal {
    var active: Segment.Segment
    const table: Table
    const index: KeyIndex.Index
    const cap: nat
    var files: map<nat, seq<byte>>
    var dir: set<nat>               // the bases named in the directory
    ghost var log: Log

    ghost function Repr(): set<object>
      reads this
    {
      {this, active, table, table.bases, index, index.keys}
    }

    ghost predicate Valid()
      reads this, active, table, table.bases, index, index.keys
    {
      && Placed(log) && log.cap == cap && log.writeOff <= |Last(log).file|
      && active.Valid() && table.Valid() && index.Valid()
      && Mirrors(active, log)
      && table.Bases() == BasesOf(Linked(log)) && dir == Members(table.Bases())
      && HoldsFinished(files, log)
      && Headed(Flat(log.segs)) && index.log == Heads(Flat(log.segs))
    }

    constructor Assemble(active: Segment.Segment, table: Table, index: KeyIndex.Index, cap: nat,
                         files: map<nat, seq<byte>>, dir: set<nat>, ghost log: Log)
      ensures this.active == active && this.table == table && this.index == index && this.cap == cap
      ensures this.files == files && this.dir == dir && this.log == log
    {
      this.active, this.table, this.index, this.cap := active, table, index, cap;
      this.files, this.dir, this.log := files, dir, log;
    }

    /** The bytes a descriptor on the segment with this base reads. */
    function FileAt(base: nat): (f: seq<byte>)
      reads this, active
    {
      if base == active.base then active.file
      else if base in files then files[base] else []
    }

    // ---- writing ----

    /** After a flush all that was appended is durable. */
    method Sync()
      requires Valid()
      modifies Repr()
      ensures Valid() && Repr() == old(Repr()) && log == Store.Sync(old(log))
    {
      hide Chain, Headed, Heads, Flat, Concat, Segment.IsRun, KeyIndex.Accounts, Ascending, Members, BasesOf;
      SyncPlaced(log);
      active.Sync();
      log := Store.Sync(log);
    }

    /** Name a new segment for the sequence after the flushed ones; make it active. */
    method NextSegment()
      requires Valid() && 0 < log.writeOff && |log.segs| - log.gone < MAX_SEGMENTS && Next(log) < U64_LIMIT
      requires log.durable == Next(log) - 1
      modifies Repr()
      ensures Valid() && fresh(Repr() - old(Repr())) && log == Roll(old(log))
    {
      hide Placed, Headed, Heads, Flat, AllZero, HoldsFinished, BasesOf, Ascending, Members, Zeros, Concat,
        Segment.IsRun, KeyIndex.Accounts;
      ghost var w := log;
      RolledTable(w);
      RolledBases(w);
      var nextBase := active.durableSeq + 1;
      files := files[active.base := active.file];
      RolledFiles(old(files), files, w);
      var seg := new Segment.Segment.Reset(nextBase, cap, Zeros(cap));
      EmptyConcat();
      table.Push(nextBase);
      active := seg;
      dir := dir + {nextBase};
      PushedMembers(old(table.Bases()), nextBase);
      log := Roll(w);
    }

    /** The encode and write of one record that is known to fit. */
    method AppendActive(r: Rec, payload: seq<byte>, scratch: array<byte>) returns (res: Result<nat>, out: Rec)
      requires Valid() && Next(log) < U64_LIMIT && scratch !in Repr()
      requires 0 < SizeOf(r) && log.writeOff + SizeOf(r) <= cap && |payload| == r.len
      modifies Repr(), scratch
      ensures Valid() && Repr() == old(Repr())
      ensures res == if scratch.Length < SizeOf(r) then Err(NoMemory) else Ok(old(Next(log)))
      ensures res.Err? ==> log == old(log)
      ensures res.Ok? ==>
        var img := Encode(r.(seqno := old(Next(log))), payload);
        log == Write(old(log), img) && out == Decode(img)
    {
      hide Chain, AllEndClean, Flat, Concat, Encode, Decode, WriteAt, Sealed, Canonical, IsRecordAt, HoldsFinished,
        Headed, Heads, Segment.IsRun, KeyIndex.Accounts, Ascending, Members, BasesOf, Linked;
      ghost var w := log;
      ghost var img := Encode(r.(seqno := Next(w)), payload);
      var done;
      done, out := active.Append(r, payload, scratch);
      if done.Err? {
        return Err(NoMemory), out;
      }
      Segment.EncodedAt(r.(seqno := Next(w)), payload);
      WritePlaced(w, img);
      WrittenHeads(w, img);
      WrittenSegs(w, img, files);
      index.Add(out);
      log := Write(w, img);
      LastOk(log);
      res := Ok(out.seqno);
    }

    /**
     What happens to the log when a record is written, with or without a new
     segment, and what the caller is told, is Store.Append.
     */
    method Append(r: Rec, payload: seq<byte>, scratch: array<byte>) returns (res: Result<nat>, out: Rec)
      requires Valid() && log.segs != [] && Next(log) < U64_LIMIT && scratch !in Repr()
      requires SizeOf(r) != 0 ==> |payload| == r.len
      modifies Repr(), scratch
      ensures Valid() && fresh(Repr() - old(Repr()))
      ensures Appends(old(log), r, payload, scratch.Length, log, res)
      ensures res.Ok? ==> SizeOf(r) != 0 && out == Decode(Encode(r.(seqno := old(Next(log))), payload))
    {
      hide Placed, Flat, Concat, Encode, Decode, WriteAt, Headed, Heads, HoldsFinished, Members, BasesOf,
        Segment.IsRun, KeyIndex.Accounts, Ascending, RollIfFull;
      ghost var w := log;
      NotEmpty(w);
      var size := Size(ToInt32(r.len));
      if size == 0 || size > cap {
        return Err(Invalid), r;
      }
      var fits := active.Fits(ToInt32(r.len));
      TableCount(w, table.Bases());
      RollOrNot(w, size);
      if !fits {
        if table.count >= MAX_SEGMENTS {
          return Err(NoMemory), r;
        }
        Sync();
        SyncFacts(w);
        NextSegment();
      }
      assert log == RollIfFull(w, size);
      res, out := AppendActive(r, payload, scratch);
    }

    /**
     The replica's append. Unless the record is numbered as this log's next it is
     refused; then what is stored is the encoding of exactly what was sent.
     */
    method AppendAt(r: Rec, payload: seq<byte>, scratch: array<byte>) returns (res: Result<nat>)
      requires Valid() && log.segs != [] && Next(log) < U64_LIMIT && scratch !in Repr()
      requires SizeOf(r) != 0 ==> |payload| == r.len
      modifies Repr(), scratch
      ensures Valid() && fresh(Repr() - old(Repr()))
      ensures r.seqno != old(Next(log)) ==> res == Err(Invalid) && log == old(log)
      ensures r.seqno == old(Next(log)) ==> Appends(old(log), r, payload, scratch.Length, log, res)
      ensures res.Ok? ==> SizeOf(r) != 0 && res.value == r.seqno
      ensures res.Ok? ==> Flat(log.segs) == old(Flat(log.segs)) + [Encode(r, payload)]
    {
      hide Placed, Flat, Encode, Store.Append, Headed, Heads, HoldsFinished, Mirrors, Members, BasesOf,
        Segment.IsRun, KeyIndex.Accounts, Ascending;
      var want := r.seqno;
      NotEmpty(log);
      NextIs(active, log);
      if want != active.nextSeq {
        return Err(Invalid);
      }
      AppendKeeps(log, r, payload, scratch.Length);
      assert r.(seqno := Next(log)) == r;
      var out;
      res, out := Append(r, payload, scratch);
    }

    // ---- retention ----

    /**
     The keep_from that leaves the newest k segments in place: it is the base of
     a linked segment, and k of them begin at or after it. Asked for none, or for
     as many as there are, it is 0, below every base.
     */
    method RetainMark(k: int) returns (mark: nat)
      requires Valid()
      ensures mark == Store.RetainMark(table.Bases(), k)
      ensures
        var s := Linked(log);
        if k <= 0 || |s| <= k then mark == 0 && forall i :: 0 <= i < |s| ==> mark < s[i].base
        else
          && (exists i :: 0 <= i < |s| && s[i].base == mark)
          && (forall i :: 0 <= i < |s| ==> (mark <= s[i].base <==> |s| - k <= i))
    {
      hide Placed, Headed, Heads, Flat, Mirrors, HoldsFinished, Segment.IsRun, KeyIndex.Accounts, Ascending, Members;
      MarkKeepsNewest(log, k);
      if k <= 0 || table.count <= k {
        return 0;
      }
      assert table.bases[table.count - k] as nat == table.Bases()[table.count - k];
      mark := table.bases[table.count - k];
    }

    /** How many segments end at or before `keep`; the last is never one of them. */
    method CountDrop(keep: nat) returns (drop: nat)
      requires table.Valid() && table.count > 0
      ensures drop == DropCount(table.Bases(), keep) && drop < table.count
    {
      hide Ascending;
      ghost var bases := table.Bases();
      drop := 0;
      assert bases[0..] == bases;
      while drop + 1 < table.count && table.bases[drop + 1] <= keep
        invariant drop < table.count
        invariant DropCount(bases, keep) == drop + DropCount(bases[drop..], keep)
      {
        assert bases[drop..][1..] == bases[drop + 1..] && bases[drop..][1] == bases[drop + 1];
        drop := drop + 1;
      }
      if drop + 1 < table.count { assert bases[drop..][1] == bases[drop + 1]; }
    }

    /** Unlink from the oldest name on, until `drop` are gone or one refuses. */
    method Unlink(drop: nat, fails: nat) returns (n: nat)
      requires table.Valid() && drop <= table.count && dir == Members(table.Bases())
      modifies this`dir
      ensures n == (if fails < drop then fails else drop) && dir == Members(table.Bases()[n..])
    {
      hide Members;
      ghost var bases := table.Bases();
      n := 0;
      assert bases[0..] == bases;
      while n < drop && n != fails
        invariant 0 <= n <= drop && n <= fails
        invariant dir == Members(bases[n..])
        modifies this`dir
      {
        AscendingTail(bases, n);
        TailMembers(bases[n..]);
        assert bases[n..][1..] == bases[n + 1..];
        dir := dir - {table.bases[n] as nat};
        n := n + 1;
      }
    }

    /**
     Retention: unlink from the oldest segment on while none of its records is
     needed from `keep` on. The unlink numbered `fails` is the one that
     does not succeed, if the loop reaches it; the table and the directory agree
     afterwards either way.
     */
    method Retain(keep: nat, fails: nat) returns (res: Result<()>, removed: nat)
      requires Valid()
      modifies Repr()
      ensures Valid() && Repr() == old(Repr())
      ensures log.segs == old(log).segs && log.gone == old(log).gone + removed
      ensures Retains(old(log), keep, fails, log)
      ensures res.Err? <==> fails < DropCount(old(table.Bases()), keep)
    {
      hide Placed, Headed, Heads, Flat, Mirrors, HoldsFinished, Segment.IsRun, Segment.Segment.Valid,
        KeyIndex.Index.Valid, Ascending, Members, BasesOf, DropCount, Store.Retain, Linked;
      ghost var w, bases := log, table.Bases();
      NotEmpty(w);
      TableCount(w, bases);
      var drop := CountDrop(keep);
      removed := Unlink(drop, fails);
      RetainedBases(w, removed);
      RetainedRest(active, files, w, removed);
      RetainIs(w, keep, fails, drop);
      table.DropFront(removed);
      log := w.(gone := w.gone + removed);
      res := if removed < drop then Err(Syscall) else Ok(());
    }

    // ---- opening ----

    /** With no segment listed, the log is one new segment that begins at 1. */
    static method CreateFirst(table: Table, cap: nat) returns (w: Wal)
      requires table.Valid() && table.Bases() == [] && HEADER <= cap
      modifies table, table.bases
      ensures w.Valid() && fresh(w.Repr() - {table, table.bases})
      ensures w.log == Log(cap, [Seg(1, [], Zeros(cap))], 0, 0, 0, 0) && TailClean(w.log)
    {
      hide Placed, TailClean, Flat, BasesOf, HoldsFinished, Headed, Heads, Segment.IsRun, KeyIndex.Accounts,
        Ascending, Zeros, Members;
      var seg := new Segment.Segment.Reset(1, cap, Zeros(cap));
      var index := new KeyIndex.Index();
      table.Push(1);
      FirstLog(cap);
      w := new Wal.Assemble(seg, table, index, cap, map[], {1},
                            Log(cap, [Seg(1, [], Zeros(cap))], 0, 0, 0, 0));
    }

    /** Account for everything a segment's scan accepted. */
    static method IndexAll(index: KeyIndex.Index, seen: seq<seq<byte>>)
      requires index.Valid() && Headed(seen)
      modifies index, index.keys
      ensures index.Valid() && index.log == old(index.log) + Heads(seen)
    {
      hide KeyIndex.Accounts, Decode;
      var k := 0;
      while k < |seen|
        invariant k <= |seen| && index.Valid() && index.log == old(index.log) + Heads(seen)[..k]
      {
        index.Add(Decode(seen[k]));
        k := k + 1;
      }
    }

    /** One segment of the opening scan, with its records told to the index. */
    static method ScanOne(base: nat, bytes: seq<byte>, expected: nat, cap: nat, scratch: array<byte>,
                          index: KeyIndex.Index)
        returns (r: Result<Segment.Segment>, torn: bool, seen: seq<seq<byte>>)
      requires 0 < base && HEADER <= cap && HEADER <= scratch.Length
      requires index.Valid()
      modifies scratch, index, index.keys
      ensures index.Valid()
      ensures var s := Segment.ScanFrom(bytes, cap, scratch.Length, 0, base);
        && (base != expected ==> r == Err(Storage))
        && (base == expected && s.stop == Segment.NoRoom ==> r == Err(NoMemory))
        && (base == expected && s.stop != Segment.NoRoom ==>
              && r.Ok? && fresh(r.value) && r.value.Valid() && Holds(r.value, base, bytes, s.images, cap)
              && torn == (s.stop == Segment.Torn) && seen == s.images
              && Headed(seen) && index.log == old(index.log) + Heads(seen))
    {
      hide Segment.ScanFrom, Segment.IsRun, KeyIndex.Accounts, Heads, Headed, Concat;
      torn, seen := false, [];
      if base != expected {
        return Err(Storage), false, [];
      }
      var seg := new Segment.Segment.Reset(base, cap, bytes);
      var done;
      done, seen := seg.Recover(scratch);
      if done.Err? {
        return Err(NoMemory), false, seen;
      }
      ScanHeaded(bytes, cap, scratch.Length, base);
      IndexAll(index, seen);
      r, torn := Ok(seg), done.value;
    }

    /**
     Scan the listed segments in order, stopping at the first that does not
     start where the one before it ended or that cannot be read to its end.
     */
    static method ScanAll(table: Table, files: map<nat, seq<byte>>, cap: nat, scratch: array<byte>,
                          index: KeyIndex.Index, ghost listing: seq<File>)
        returns (r: Result<Segment.Segment>, torn: bool, seen: seq<seq<byte>>)
      requires table.Valid() && index.Valid() && index.log == []
      requires HEADER <= cap && HEADER <= scratch.Length
      requires Lists(listing, table.Bases(), files, cap) && listing != []
      modifies scratch, index, index.keys
      ensures index.Valid()
      ensures var o := OpenFrom(listing, cap, scratch.Length, listing[0].base);
        && (r.Err? <==> o.Err?) && (r.Err? ==> r.error == o.error)
        && (r.Ok? ==>
              var n, f := |listing| - 1, listing[|listing| - 1];
              && fresh(r.value) && r.value.Valid() && Holds(r.value, f.base, f.bytes, o.value.images[n], cap)
              && torn == o.value.torn && seen == Flatten(o.value.images)
              && Headed(seen) && index.log == Heads(seen))
    {
      hide OpenFrom, Segment.ScanFrom, Segment.IsRun, KeyIndex.Accounts, Ascending, Heads, Headed, Flatten, Lift,
        Holds, Concat;
      var i, expected: nat := 0, table.bases[0];
      ghost var whole := OpenFrom(listing, cap, scratch.Length, listing[0].base);
      ghost var got: seq<seq<seq<byte>>> := [];
      seen, torn := [], false;
      NothingYet(whole);
      assert listing[0..] == listing;
      while true
        invariant 0 <= i < table.count && index.Valid()
        invariant |got| == i && seen == Flatten(got) && Headed(seen) && index.log == Heads(seen)
        invariant whole == Lift(got, OpenFrom(listing[i..], cap, scratch.Length, expected))
        decreases table.count - i
      {
        var base: nat := table.bases[i];
        assert table.Bases()[i] == base && listing[i] == File(base, files[base]);
        OpenStep(listing, cap, scratch.Length, i, expected);
        var part;
        r, torn, part := ScanOne(base, files[base], expected, cap, scratch, index);
        if r.Err? {
          LiftErr(got, r.error);
          return;
        }
        MoreSeen(got, seen, part);
        if i == table.count - 1 {
          LiftLast(got, part, torn);
          seen := seen + part;
          return;
        }
        if torn {
          LiftErr(got, Storage);
          return Err(Storage), torn, seen + part;
        }
        expected := base + |part|;
        LiftTwice(got, [part], OpenFrom(listing[i + 1..], cap, scratch.Length, expected));
        got := got + [part];
        seen := seen + part;
        i := i + 1;
      }
    }

    /** The opening of a directory that lists at least one segment. */
    static method OpenListed(table: Table, files: map<nat, seq<byte>>, cap: nat, scratch: array<byte>,
                             ghost listing: seq<File>)
        returns (r: Result<Wal>, torn: bool, seen: seq<seq<byte>>)
      requires table.Valid() && HEADER <= cap && HEADER <= scratch.Length && listing != []
      requires Lists(listing, table.Bases(), files, cap) && Members(table.Bases()) == files.Keys
      modifies scratch
      ensures match OpenFrom(listing, cap, scratch.Length, listing[0].base)
        case Err(e) => r == Err(e)
        case Ok(o) =>
          && r.Ok? && fresh(r.value.Repr() - {table, table.bases}) && r.value.table == table
          && (Full(files, cap) ==> r.value.Valid())
          && r.value.log == Reopened(listing, cap, o) && torn == o.torn && seen == Flatten(o.images)
    {
      hide OpenFrom, Segment.IsRun, KeyIndex.Accounts, Heads, Headed, Flatten, Flat, Placed, Reopened,
        Mirrors, HoldsFinished, Holds, Lists, Concat, Members, Ascending;
      var index := new KeyIndex.Index();
      var last;
      last, torn, seen := ScanAll(table, files, cap, scratch, index, listing);
      if last.Err? {
        return Err(last.error), torn, seen;
      }
      if Full(files, cap) { Reopens(last.value, table, index, files, listing, cap, scratch.Length); }
      var w := new Wal.Assemble(last.value, table, index, cap, files, files.Keys,
                                Reopened(listing, cap, OpenFrom(listing, cap, scratch.Length, listing[0].base).value));
      r := Ok(w);
    }

    /**
     Open the log a directory holds. Every record recovered is handed back in
     order, for whatever else is derived from the log. What opens, into what,
     and why it is refused is Recovery.OpenFrom over the files in base order.
     */
    static method Open(areas: seq<string>, files: map<nat, seq<byte>>, cap: nat, scratch: array<byte>)
        returns (r: Result<Wal>, torn: bool, seen: seq<seq<byte>>, ghost listing: seq<File>)
      requires forall k :: 0 <= k < |areas| ==> |areas[k]| != NAME_LEN
      requires Parsed(areas) == files.Keys
      modifies scratch
      ensures cap < HEADER || scratch.Length < HEADER ==> r == Err(Invalid)
      ensures HEADER <= cap && HEADER <= scratch.Length && !Loads(areas) ==> r == Err(NoMemory)
      ensures HEADER <= cap && HEADER <= scratch.Length && Loads(areas) ==>
        && Members(Names(listing)) == files.Keys && Lists(listing, Names(listing), files, cap)
        && match Outcome(listing, cap, scratch.Length)
           case Err(e) => r == Err(e)
           case Ok(w) =>
             && r.Ok? && fresh(r.value.Repr()) && r.value.log == w
             && (Full(files, cap) ==> r.value.Valid())
      ensures HEADER <= cap && HEADER <= scratch.Length && Loads(areas) && listing != [] && r.Ok? ==>
        var o := OpenFrom(listing, cap, scratch.Length, listing[0].base);
        o.Ok? && torn == o.value.torn && seen == Flatten(o.value.images)
    {
      hide Wal.Valid, OpenFrom, Flatten, Reopened, Parse, Zeros, Members, Ascending, Parsed, Loads;
      torn, seen, listing := false, [], [];
      if cap < HEADER || scratch.Length < HEADER {
        return Err(Invalid), torn, seen, listing;
      }
      var table := new Table();
      var loaded := table.Load(areas);
      if !loaded {
        return Err(NoMemory), torn, seen, listing;
      }
      MemberFacts(table.Bases(), areas, files);
      listing := ListingOf(table.Bases(), files);
      ListingNames(table.Bases(), files);
      if table.count == 0 {
        var w := CreateFirst(table, cap);
        return Ok(w), torn, seen, listing;
      }
      r, torn, seen := OpenListed(table, files, cap, scratch, listing);
    }
  }

  /** Every file has been allocated whole. */
  ghost predicate Full(files: map<nat, seq<byte>>, cap: nat) {
    forall b :: b in files ==> |files[b]| == cap
  }

  /** What opening a listed directory comes to. */
  ghost function Outcome(listing: seq<File>, cap: nat, scratch: nat): Result<Log> {
    if listing == [] then Ok(Log(cap, [Seg(1, [], Zeros(cap))], 0, 0, 0, 0))
    else
      match OpenFrom(listing, cap, scratch, listing[0].base)
      case Err(e) => Err(e)
      case Ok(o) => Ok(Reopened(listing, cap, o))
  }

  ghost function Names(listing: seq<File>): (s: seq<nat>)
    ensures |s| == |listing|
    ensures forall i :: 0 <= i < |s| ==> s[i] == listing[i].base
  {
    seq(|listing|, i requires 0 <= i < |listing| => listing[i].base)
  }

  lemma MemberFacts(bases: seq<nat>, areas: seq<string>, files: map<nat, seq<byte>>)
    requires Members(bases) == Parsed(areas) == files.Keys
    ensures forall i :: 0 <= i < |bases| ==> bases[i] in files && 0 < bases[i]
  {
    forall i | 0 <= i < |bases|
      ensures bases[i] in files && 0 < bases[i]
    {
      assert bases[i] in Members(bases);
    }
  }

  lemma ListingNames(bases: seq<nat>, files: map<nat, seq<byte>>)
    requires forall i :: 0 <= i < |bases| ==> bases[i] in files && 0 < bases[i]
    ensures Names(ListingOf(bases, files)) == bases
  {}

  /** The listing in directory order, as the loaded table has it. */
  ghost function ListingOf(bases: seq<nat>, files: map<nat, seq<byte>>): (l: seq<File>)
    requires forall i :: 0 <= i < |bases| ==> bases[i] in files
    ensures |l| == |bases|
  {
    seq(|bases|, i requires 0 <= i < |bases| => File(bases[i], files[bases[i]]))
  }

  /** A recovered segment: these records of this file, all of it durable. */
  ghost predicate Holds(s: Segment.Segment, base: nat, bytes: seq<byte>, images: seq<seq<byte>>, cap: nat)
    reads s
  {
    && s.base == base && s.file == bytes && s.images == images && s.capacity == cap
    && s.writeOff == s.syncedOff == |Concat(images)|
    && s.nextSeq == base + |images| == s.durableSeq + 1
  }

  lemma ScanHeaded(bytes: seq<byte>, cap: nat, scratch: nat, base: nat)
    requires 0 < base
    ensures var s := Segment.ScanFrom(bytes, cap, scratch, 0, base);
      Headed(s.images) && s.end == |Concat(s.images)|
  {
    hide Segment.ScanFrom, Concat;
    Segment.ScanIsRun(bytes, cap, scratch, 0, base);
    var s := Segment.ScanFrom(bytes, cap, scratch, 0, base);
    forall i | 0 <= i < |s.images|
      ensures |s.images[i]| >= HEADER && Decode(s.images[i]).seqno > 0
    {
      assert IsRecordAt(s.images[i], base + i);
    }
  }

  lemma NothingYet(r: Result<Opened>)
    ensures r == Lift([], r) && Flatten([]) == [] && Headed([]) && Heads([]) == []
  {
    LiftNothing(r);
  }

  lemma LiftErr(got: seq<seq<seq<byte>>>, e: Error)
    ensures Lift(got, Err(e)) == Err(e)
  {}

  lemma LiftLast(got: seq<seq<seq<byte>>>, part: seq<seq<byte>>, torn: bool)
    ensures Lift(got, Ok(Opened([part], torn))) == Ok(Opened(got + [part], torn))
    ensures (got + [part])[|got|] == part
  {}

  lemma MoreSeen(got: seq<seq<seq<byte>>>, seen: seq<seq<byte>>, part: seq<seq<byte>>)
    requires seen == Flatten(got) && Headed(seen) && Headed(part)
    ensures Flatten(got + [part]) == seen + part && Headed(seen + part)
    ensures Heads(seen + part) == Heads(seen) + Heads(part)
  {
    hide Decode;
    FlattenPush(got, part);
  }

  /** The directory as the table lists it. */
  ghost predicate Lists(listing: seq<File>, bases: seq<nat>, files: map<nat, seq<byte>>, cap: nat) {
    && |listing| == |bases| && Ascending(bases)
    && forall i :: 0 <= i < |bases| ==>
         && 0 < bases[i] && bases[i] in files
         && listing[i] == File(bases[i], files[bases[i]])
  }

  lemma Reopens(s: Segment.Segment, table: Table, index: KeyIndex.Index, files: map<nat, seq<byte>>,
                listing: seq<File>, cap: nat, scratch: nat)
    requires s.Valid() && table.Valid() && HEADER <= cap && listing != []
    requires Lists(listing, table.Bases(), files, cap) && Full(files, cap)
    requires OpenFrom(listing, cap, scratch, listing[0].base).Ok?
    requires var o, f := OpenFrom(listing, cap, scratch, listing[0].base).value, listing[|listing| - 1];
      Holds(s, f.base, f.bytes, o.images[|listing| - 1], cap)
    ensures var o := OpenFrom(listing, cap, scratch, listing[0].base).value;
      var w := Reopened(listing, cap, o);
      && Placed(w) && w.cap == cap && Mirrors(s, w) && HoldsFinished(files, w)
      && table.Bases() == BasesOf(Linked(w)) && Flat(w.segs) == Flatten(o.images)
      && w.writeOff <= |Last(w).file|
  {
    hide OpenFrom, Chain, AllEndClean, Segment.IsRun, Flatten, Flat, Concat;
    var o := OpenFrom(listing, cap, scratch, listing[0].base).value;
    var w := Reopened(listing, cap, o);
    ReopenGood(listing, cap, scratch);
    LastOk(w);
    FlatReopened(listing, o.images);
    assert Linked(w) == w.segs;
    assert table.Bases() == BasesOf(Linked(w));
  }

  lemma {:induction false} FlatReopened(listing: seq<File>, images: seq<seq<seq<byte>>>)
    requires |images| == |listing|
    ensures Flat(SegsOf(listing, images)) == Flatten(images)
  {
    if images != [] {
      FlatReopened(listing[1..], images[1..]);
      assert SegsOf(listing, images)[1..] == SegsOf(listing[1..], images[1..]);
    }
  }

  lemma FirstLog(cap: nat)
    requires HEADER <= cap
    ensures var w := Log(cap, [Seg(1, [], Zeros(cap))], 0, 0, 0, 0);
      && Placed(w) && Good(w) && TailClean(w) && Flat(w.segs) == [] && BasesOf(Linked(w)) == [1]
      && HoldsFinished(map[], w) && Headed([]) && Heads([]) == [] && Members([1]) == {1}
  {
    var w := Log(cap, [Seg(1, [], Zeros(cap))], 0, 0, 0, 0);
    Segment.EmptyRun(Zeros(cap), cap, 0, 1);
    FlatOne(w.segs[0]);
    assert w.segs[0].images[..0] == [];
  }

  lemma RetainIs(w: Log, keep: nat, fails: nat, drop: nat)
    requires Placed(w) && w.gone <= |w.segs| && drop == DropCount(BasesOf(Linked(w)), keep)
    ensures Store.Retain(w, keep, fails) == w.(gone := w.gone + if fails < drop then fails else drop)
    ensures Placed(Store.Retain(w, keep, fails))
  {
    hide Chain, Concat;
    RetainSound(w, keep, fails);
  }

  lemma RetainedRest(s: Segment.Segment, files: map<nat, seq<byte>>, w: Log, n: nat)
    requires w.segs != [] && Mirrors(s, w) && HoldsFinished(files, w) && w.gone + n <= |w.segs|
    ensures Mirrors(s, w.(gone := w.gone + n)) && HoldsFinished(files, w.(gone := w.gone + n))
    ensures Last(w.(gone := w.gone + n)) == Last(w)
  {}

  lemma NextIs(s: Segment.Segment, w: Log)
    requires w.segs != [] && Mirrors(s, w)
    ensures s.nextSeq == Next(w)
  {}

  ghost predicate Retains(w: Log, keep: nat, fails: nat, v: Log) {
    w.gone <= |w.segs| && v == Store.Retain(w, keep, fails)
  }

  lemma AscendingTail(s: seq<nat>, i: nat)
    requires Ascending(s) && i < |s|
    ensures Ascending(s[i..]) && s[i..] != [] && s[i..][0] == s[i]
  {}

  lemma RetainedBases(w: Log, n: nat)
    requires w.gone + n <= |w.segs|
    ensures BasesOf(Linked(w.(gone := w.gone + n))) == BasesOf(Linked(w))[n..]
  {
    assert Linked(w.(gone := w.gone + n)) == Linked(w)[n..];
  }

  lemma EmptyConcat()
    ensures Concat([]) == []
  {}

  lemma PushedMembers(s: seq<nat>, b: nat)
    ensures Members(s + [b]) == Members(s) + {b}
  {}

  lemma RolledTable(w: Log)
    requires Placed(w) && 0 < w.writeOff && |w.segs| - w.gone < MAX_SEGMENTS
    ensures Placed(Roll(w)) && Flat(Roll(w).segs) == Flat(w.segs)
    ensures 0 < Next(w) && HEADER <= w.cap && w.gone < |w.segs|
  {
    hide Chain, Flat;
    RollPlaced(w);
    LastOk(w);
    SegBasePositive(Last(w), w.cap);
  }

  lemma RolledBases(w: Log)
    requires Placed(w) && 0 < w.writeOff
    ensures BasesOf(Linked(Roll(w))) == BasesOf(Linked(w)) + [Next(w)]
    ensures |Linked(w)| > 0 && BasesOf(Linked(w))[|Linked(w)| - 1] == Last(w).base < Next(w)
  {
    hide Chain, Concat, Zeros, BasesOf;
    LastNotEmpty(w);
    assert Linked(Roll(w)) == Linked(w) + [Last(Roll(w))];
    BasesPush(Linked(w), Last(Roll(w)));
  }

  lemma BasesPush(segs: seq<Seg>, s: Seg)
    ensures BasesOf(segs + [s]) == BasesOf(segs) + [s.base]
  {}

  lemma TableCount(w: Log, bases: seq<nat>)
    requires Placed(w) && bases == BasesOf(Linked(w))
    ensures |bases| == |w.segs| - w.gone
  {
    hide Chain, Concat;
  }

  lemma SyncFacts(w: Log)
    requires Placed(w)
    ensures var v := Store.Sync(w);
      && v.durable == Next(v) - 1 && Next(v) == Next(w) && Roll(v) == Roll(w)
      && v.writeOff == w.writeOff && |v.segs| - v.gone == |w.segs| - w.gone
  {
    hide Chain, Concat;
  }

  lemma NotEmpty(w: Log)
    requires Placed(w)
    ensures w.gone < |w.segs| && HEADER <= w.cap
  {
    hide Chain, Concat;
  }

  lemma ActiveNext(w: Wal)
    requires w.Valid()
    ensures Placed(w.log) && w.log.segs != [] && w.active.nextSeq == Next(w.log)
  {
    hide Chain, Concat, Headed, Heads, Flat, HoldsFinished, KeyIndex.Accounts, Ascending;
    NotEmpty(w.log);
    NextIs(w.active, w.log);
  }

  lemma RollOrNot(w: Log, size: nat)
    requires w.segs != []
    ensures RollIfFull(w, size) == if w.writeOff + size <= w.cap then w else Roll(w)
    ensures Next(Roll(w)) == Next(w)
  {}

  lemma WrittenHeads(w: Log, img: seq<byte>)
    requires w.segs != [] && w.writeOff <= |Last(w).file|
    requires Flat(Write(w, img).segs) == Flat(w.segs) + [img]
    requires Headed(Flat(w.segs)) && |img| >= HEADER && Decode(img).seqno > 0
    ensures Headed(Flat(Write(w, img).segs))
    ensures Heads(Flat(Write(w, img).segs)) == Heads(Flat(w.segs)) + [Decode(img)]
  {
    hide Flat, Decode, WriteAt;
  }

  lemma WrittenSegs(w: Log, img: seq<byte>, files: map<nat, seq<byte>>)
    requires w.gone < |w.segs| && w.writeOff <= |Last(w).file| && HoldsFinished(files, w)
    ensures BasesOf(Linked(Write(w, img))) == BasesOf(Linked(w)) && HoldsFinished(files, Write(w, img))
  {
    hide WriteAt;
  }

  lemma RolledFiles(before: map<nat, seq<byte>>, files: map<nat, seq<byte>>, w: Log)
    requires Placed(w) && HoldsFinished(before, w) && files == before[Last(w).base := Last(w).file]
    ensures HoldsFinished(files, Roll(w))
  {
    hide Chain;
    forall i | 0 <= i < |w.segs|
      ensures w.segs[i].base in files && files[w.segs[i].base] == w.segs[i].file
    {
      if i < |w.segs| - 1 { BasesAscend(w.segs, w.cap, i, |w.segs| - 1); }
    }
  }
}
