/**
 The record format of the log: a 56-byte header, the payload, and zero
 padding to an eight-byte boundary, with a checksum over everything after
 the checksum field.

 A stored record is represented by its bytes, its image; the header fields
 are read back out of it.
 */
module Record {
  import opened Bytes
  import Crc32c

  const HEADER := 56
  const MAX_PAYLOAD := 0x10_0000
  const MAX_SIZE := 56 + 0x10_0000

  datatype Rec = Rec(
    crc: u32, len: u32, term: u64, seqno: u64, session: u64, clientSeq: u64,
    recordType: u16, flags: u16, pad: u32, key: u64)

  /** n rounded up to a multiple of eight. */
  function Padded(n: nat): (p: nat)
    ensures n <= p < n + 8 && p % 8 == 0
  {
    (n + 7) / 8 * 8
  }

  /** On-disk size of a record, or 0 when the length is out of range. */
  function Size(len: int): (s: nat)
    ensures s == 0 <==> len < 0 || len > MAX_PAYLOAD
    ensures s != 0 ==> HEADER + len <= s <= MAX_SIZE && s % 8 == 0
  {
    if len < 0 || len > MAX_PAYLOAD then 0 else HEADER + Padded(len)
  }

  function SizeOf(r: Rec): nat {
    Size(ToInt32(r.len))
  }

  // ---- the header image ----

  function Fields(r: Rec): (s: seq<byte>)
    ensures |s| == HEADER - 4
  {
    ToLe(r.len, 4) + ToLe(r.term, 8) + ToLe(r.seqno, 8) + ToLe(r.session, 8) + ToLe(r.clientSeq, 8)
    + ToLe(r.recordType, 2) + ToLe(r.flags, 2) + ToLe(r.pad, 4) + ToLe(r.key, 8)
  }

  function Header(r: Rec): (s: seq<byte>)
    ensures |s| == HEADER
  {
    ToLe(r.crc, 4) + Fields(r)
  }

  function U16At(b: seq<byte>, i: nat): u16
    requires i + 2 <= |b|
  {
    Pow256Values();
    FromLe(b[i..i + 2])
  }

  function U32At(b: seq<byte>, i: nat): u32
    requires i + 4 <= |b|
  {
    Pow256Values();
    FromLe(b[i..i + 4])
  }

  function U64At(b: seq<byte>, i: nat): u64
    requires i + 8 <= |b|
  {
    Pow256Values();
    FromLe(b[i..i + 8])
  }

  /** The header at the front of b, taken as it stands. */
  function Decode(b: seq<byte>): Rec
    requires |b| >= HEADER
  {
    Rec(U32At(b, 0), U32At(b, 4), U64At(b, 8), U64At(b, 16), U64At(b, 24), U64At(b, 32),
        U16At(b, 40), U16At(b, 42), U32At(b, 44), U64At(b, 48))
  }

  lemma SameSlice(b: seq<byte>, c: seq<byte>, i: nat, n: nat)
    requires |b| >= HEADER && |c| >= HEADER && b[..HEADER] == c[..HEADER] && i + n <= HEADER
    ensures b[i..i + n] == c[i..i + n]
  {
    assert b[..HEADER][i..i + n] == b[i..i + n];
    assert c[..HEADER][i..i + n] == c[i..i + n];
  }

  lemma DecodePrefix(b: seq<byte>, c: seq<byte>)
    requires |b| >= HEADER && |c| >= HEADER && b[..HEADER] == c[..HEADER]
    ensures Decode(b) == Decode(c)
  {
    hide FromLe;
    SameSlice(b, c, 0, 4); SameSlice(b, c, 4, 4); SameSlice(b, c, 8, 8); SameSlice(b, c, 16, 8);
    SameSlice(b, c, 24, 8); SameSlice(b, c, 32, 8); SameSlice(b, c, 40, 2); SameSlice(b, c, 42, 2);
    SameSlice(b, c, 44, 4); SameSlice(b, c, 48, 8);
  }

  lemma DecodeHeader(r: Rec)
    ensures Decode(Header(r)) == r
  {
    Pow256Values();
    var h := Header(r);
    assert h[0..4] == ToLe(r.crc, 4) && h[4..8] == ToLe(r.len, 4);
    assert h[8..16] == ToLe(r.term, 8) && h[16..24] == ToLe(r.seqno, 8);
    assert h[24..32] == ToLe(r.session, 8) && h[32..40] == ToLe(r.clientSeq, 8);
    assert h[40..42] == ToLe(r.recordType, 2) && h[42..44] == ToLe(r.flags, 2);
    assert h[44..48] == ToLe(r.pad, 4) && h[48..56] == ToLe(r.key, 8);
    FromToLe(r.crc, 4); FromToLe(r.len, 4); FromToLe(r.term, 8); FromToLe(r.seqno, 8);
    FromToLe(r.session, 8); FromToLe(r.clientSeq, 8); FromToLe(r.recordType, 2);
    FromToLe(r.flags, 2); FromToLe(r.pad, 4); FromToLe(r.key, 8);
  }

  lemma FieldsDecode(b: seq<byte>)
    requires |b| >= HEADER
    ensures Fields(Decode(b)) == b[4..HEADER]
  {
    ToFromLe(b[4..8]); ToFromLe(b[8..16]); ToFromLe(b[16..24]); ToFromLe(b[24..32]);
    ToFromLe(b[32..40]); ToFromLe(b[40..42]); ToFromLe(b[42..44]); ToFromLe(b[44..48]);
    ToFromLe(b[48..56]);
    Join(b, 4, 8, 16); Join(b, 4, 16, 24); Join(b, 4, 24, 32); Join(b, 4, 32, 40);
    Join(b, 4, 40, 42); Join(b, 4, 42, 44); Join(b, 4, 44, 48); Join(b, 4, 48, 56);
  }

  lemma Join(b: seq<byte>, i: nat, j: nat, k: nat)
    requires i <= j <= k <= |b|
    ensures b[i..j] + b[j..k] == b[i..k]
  {}

  // ---- whole records ----

  /** What the checksum covers: the header after it, the payload, the padding. */
  function Covered(r: Rec, payload: seq<byte>): (s: seq<byte>)
    requires |payload| == r.len <= MAX_PAYLOAD
  {
    Fields(r.(pad := 0)) + payload + Zeros(Padded(r.len) - r.len)
  }

  /** The header the encoder leaves behind: padding field cleared, checksum set. */
  function Sealed(r: Rec, payload: seq<byte>): Rec
    requires |payload| == r.len <= MAX_PAYLOAD
  {
    r.(pad := 0, crc := Crc32c.Sum(Covered(r, payload)))
  }

  function Encode(r: Rec, payload: seq<byte>): (s: seq<byte>)
    requires |payload| == r.len <= MAX_PAYLOAD
    ensures |s| == Size(r.len)
  {
    ToLe(Sealed(r, payload).crc, 4) + Covered(r, payload)
  }

  /** TRUE for unwritten space: preallocated bytes read as sequence 0. */
  predicate IsEnd(r: Rec) {
    r.seqno == 0
  }

  /** The verification of a record at the front of b against its header. */
  predicate Verify(b: seq<byte>, r: Rec) {
    SizeOf(r) != 0 && |b| >= SizeOf(r) && Crc32c.Sum(b[4..SizeOf(r)]) == r.crc
  }

  /** Bytes whose header names exactly their own length. */
  predicate Whole(img: seq<byte>) {
    |img| >= HEADER && SizeOf(Decode(img)) == |img|
  }

  /** Bytes that are exactly one record with a matching checksum. */
  predicate IsRecord(img: seq<byte>) {
    Whole(img) && Verify(img, Decode(img))
  }

  /** A record that carries sequence n. */
  predicate IsRecordAt(img: seq<byte>, n: nat) {
    IsRecord(img) && Decode(img).seqno == n
  }

  function Payload(img: seq<byte>): (p: seq<byte>)
    requires IsRecord(img)
    ensures |p| == Decode(img).len
  {
    img[HEADER..HEADER + Decode(img).len]
  }

  /** Nothing outside the named fields: what the encoder produces. */
  predicate Canonical(img: seq<byte>) {
    IsRecord(img) && Decode(img).pad == 0 && AllZero(img[HEADER + Decode(img).len..])
  }

  /** Decoding inverts encoding, for every record and every payload. */
  lemma EncodeDecodes(r: Rec, payload: seq<byte>)
    requires |payload| == r.len <= MAX_PAYLOAD
    ensures Canonical(Encode(r, payload))
    ensures Decode(Encode(r, payload)) == Sealed(r, payload)
    ensures Payload(Encode(r, payload)) == payload
  {
    hide Crc32c.Sum, ToLe, Decode;
    var img, q := Encode(r, payload), Sealed(r, payload);
    DecodeHeader(q);
    assert Fields(q) == Fields(r.(pad := 0));
    assert img[..HEADER] == Header(q);
    DecodePrefix(img, Header(q));
    assert img[4..|img|] == Covered(r, payload);
    assert img[HEADER + r.len..] == Zeros(Padded(r.len) - r.len);
  }

  lemma CanonicalBody(img: seq<byte>)
    requires Canonical(img)
    ensures img[4..|img|] == Covered(Decode(img), Payload(img))
  {
    hide Crc32c.Sum, Decode, Fields;
    var n := HEADER + Decode(img).len;
    FieldsDecode(img);
    assert Decode(img).(pad := 0) == Decode(img);
    Join(img, 4, HEADER, n);
    Join(img, 4, n, |img|);
    assert img[n..|img|] == img[n..] == Zeros(|img| - n);
  }

  lemma CanonicalReencodes(img: seq<byte>)
    requires Canonical(img)
    ensures Encode(Decode(img), Payload(img)) == img
  {
    hide Crc32c.Sum, FromLe, ToLe, Covered;
    CanonicalBody(img);
    ToFromLe(img[0..4]);
    Join(img, 0, 4, |img|);
    assert img[0..|img|] == img;
  }

  /**
   Re-encoding what was decoded gives back the identical bytes exactly when
   the record is in the encoder's form.
   */
  lemma ReencodeIdentical(img: seq<byte>)
    requires IsRecord(img)
    ensures Encode(Decode(img), Payload(img)) == img <==> Canonical(img)
  {
    hide Encode, Decode, Payload;
    EncodeDecodes(Decode(img), Payload(img));
    if Canonical(img) { CanonicalReencodes(img); }
  }

  // ---- sequences of records ----

  function Concat(imgs: seq<seq<byte>>): seq<byte> {
    if imgs == [] then [] else imgs[0] + Concat(imgs[1..])
  }

  lemma {:induction false} ConcatAppend(a: seq<seq<byte>>, b: seq<seq<byte>>)
    ensures Concat(a + b) == Concat(a) + Concat(b)
  {
    if a == [] {
      assert a + b == b;
    } else {
      assert (a + b)[1..] == a[1..] + b;
      ConcatAppend(a[1..], b);
      assert a[0] + (Concat(a[1..]) + Concat(b)) == (a[0] + Concat(a[1..])) + Concat(b);
    }
  }

  lemma ConcatOne(img: seq<byte>)
    ensures Concat([img]) == img
  {
    assert Concat([]) == [];
    assert [img][1..] == [];
  }

  /** A concatenation of records can be cut into records in one way only. */
  lemma {:induction false} ParseUnique(a: seq<seq<byte>>, b: seq<seq<byte>>)
    requires forall i :: 0 <= i < |a| ==> Whole(a[i])
    requires forall i :: 0 <= i < |b| ==> Whole(b[i])
    requires Concat(a) == Concat(b)
    ensures a == b
  {
    hide Decode;
    if a == [] || b == [] {
      assert a == [] ==> |Concat(b)| == 0;
      assert b == [] ==> |Concat(a)| == 0;
    } else {
      var s := Concat(a);
      assert s[..HEADER] == a[0][..HEADER] && s[..HEADER] == b[0][..HEADER];
      DecodePrefix(a[0], b[0]);
      assert a[0] == s[..|a[0]|] && b[0] == s[..|b[0]|];
      assert Concat(a[1..]) == s[|a[0]|..] && Concat(b[1..]) == s[|b[0]|..];
      ParseUnique(a[1..], b[1..]);
      assert a == [a[0]] + a[1..] && b == [b[0]] + b[1..];
    }
  }

  /**
   Two records of one size under the same stored checksum that differ only
   within four consecutive bytes of the checksummed range cannot both verify.
   */
  lemma BurstRejected(a: seq<byte>, b: seq<byte>, at: nat, n: nat)
    requires IsRecord(a) && |b| == |a| && a != b
    requires n <= 4 && 4 <= at && at + n <= |a|
    requires a[..at] == b[..at] && a[at + n..] == b[at + n..]
    ensures !IsRecord(b)
  {
    hide Crc32c.Sum, SizeOf, FromLe;
    var before, u, v, after := a[4..at], a[at..at + n], b[at..at + n], a[at + n..];
    assert a == a[..at] + u + after && b == b[..at] + v + b[at + n..];
    assert b[4..at] == b[..at][4..] && a[4..at] == a[..at][4..];
    assert a[4..|a|] == before + u + after && b[4..|b|] == before + v + after;
    Crc32c.BurstDetected(before, u, v, after);
    assert a[0..4] == a[..at][0..4] && b[0..4] == b[..at][0..4];
    assert Decode(a).crc == U32At(a, 0) && Decode(b).crc == U32At(b, 0);
  }

  // ---- the routines ----

  /** Header, payload and padding laid down one after another. */
  lemma LaidDown(s: seq<byte>, h: seq<byte>, p: seq<byte>, z: seq<byte>)
    requires |h| == HEADER && HEADER + |p| + |z| <= |s|
    ensures Overlay(Overlay(Overlay(s, 0, h), HEADER, p), HEADER + |p|, z) == Overlay(s, 0, h + p + z)
  {}

  lemma ChecksumSet(s: seq<byte>, c: seq<byte>, d: seq<byte>, body: seq<byte>)
    requires |c| == |d| == 4 && 4 + |body| <= |s|
    ensures Overlay(s, 0, c + body)[4..4 + |body|] == body
    ensures Overlay(Overlay(s, 0, c + body), 0, d) == Overlay(s, 0, d + body)
  {}

  lemma Assembled(r: Rec, payload: seq<byte>)
    requires |payload| == r.len <= MAX_PAYLOAD
    ensures Header(r.(crc := 0, pad := 0)) + payload + Zeros(Padded(r.len) - r.len)
         == ToLe(0, 4) + Covered(r, payload)
  {
    hide ToLe;
    assert Fields(r.(crc := 0, pad := 0)) == Fields(r.(pad := 0));
  }

  lemma SumIsChecksum(s: seq<byte>)
    ensures Crc32c.Sum(s) == Crc32c.Value(Crc32c.Crc(Crc32c.Clear(32), s))
    ensures Crc32c.Value(Crc32c.Crc(Crc32c.Clear(32), s)) < 0x1_0000_0000
  {
    hide Crc32c.Crc, Crc32c.Value, Crc32c.Clear;
    Crc32c.Pow2Is32();
  }

  /**
   Encode into buf. Writes nothing and returns 0 when the length is out of
   range or the buffer too small; otherwise the record and nothing else
   changes, and the header handed back carries the checksum written.
   */
  method EncodeInto(buf: array<byte>, r: Rec, payload: seq<byte>) returns (total: nat, out: Rec)
    requires SizeOf(r) != 0 ==> |payload| == r.len
    modifies buf
    ensures total == if SizeOf(r) <= buf.Length then SizeOf(r) else 0
    ensures total == 0 ==> out == r && buf[..] == old(buf[..])
    ensures total != 0 ==> out == Sealed(r, payload)
    ensures total != 0 ==> buf[..] == Overlay(old(buf[..]), 0, Encode(r, payload))
  {
    hide Crc32c.Sum, Crc32c.Crc, Crc32c.Value, Covered, Header, ToLe, Padded, Zeros;
    total := Size(ToInt32(r.len));
    if total == 0 || buf.Length < total {
      return 0, r;
    }
    ghost var was, body := buf[..], Covered(r, payload);
    var len := ToInt32(r.len);
    out := r.(crc := 0, pad := 0);
    var zeros := Zeros(total - HEADER - len);
    MemPut(buf, 0, Header(out));
    MemPut(buf, HEADER, payload);
    MemPut(buf, HEADER + len, zeros);
    LaidDown(was, Header(out), payload, zeros);
    Assembled(r, payload);
    ChecksumSet(was, ToLe(0, 4), ToLe(Crc32c.Sum(body), 4), body);
    var c := Crc32c.Checksum(Crc32c.Clear(32), buf[4..total]);
    SumIsChecksum(buf[4..total]);
    out := out.(crc := Crc32c.Value(c));
    MemPut(buf, 0, ToLe(out.crc, 4));
  }

  /** Recompute the checksum of the record at the front of b and compare. */
  method VerifyRecord(b: seq<byte>, r: Rec) returns (ok: bool)
    ensures ok == Verify(b, r)
  {
    var total := Size(ToInt32(r.len));
    if total == 0 || |b| < total {
      return false;
    }
    var c := Crc32c.Checksum(Crc32c.Clear(32), b[4..total]);
    ok := Crc32c.Value(c) == r.crc;
  }
}
