/**
 The wire header: thirty-two bytes, little-endian, and the limits a frame is
 held to.
 */
module Msg {
  import opened Bytes
  import opened Wrappers

  const MAGIC: u32 := 0x4D53_4756
  const VERSION: u16 := 2
  const VERSION_MIN: u16 := 2
  const HEADER: nat := 32
  const MAX_PAYLOAD: nat := 1024 * 1024

  const OP_MIN: u16 := 1
  const OP_WRITE: u16 := 1
  const OP_NOTIFY: u16 := 5
  const OP_ACK: u16 := 6
  const OP_ERR: u16 := 7
  const OP_HELLO: u16 := 10
  const OP_REPL_START: u16 := 11
  const OP_MAX: u16 := 13

  const FLAG_ACK_REQ: u16 := 1
  const FLAG_SYNC: u16 := 2
  const FLAG_REPLICATED: u16 := 4
  const FLAG_ALLOW_DEGRADED: u16 := 8
  const FLAG_LAST: u16 := 32

  const ERR_BAD_MAGIC: u16 := 1
  const ERR_BAD_VERSION: u16 := 2
  const ERR_BAD_OP: u16 := 3
  const ERR_PAYLOAD_TOO_BIG: u16 := 4
  const ERR_NOT_LEADER: u16 := 5
  const ERR_BEHIND: u16 := 6
  const ERR_NO_SESSION: u16 := 7
  const ERR_SESSION_UNKNOWN: u16 := 8
  const ERR_UNSUPPORTED: u16 := 9
  const ERR_NO_REPLICAS: u16 := 10
  const ERR_NO_HISTORY: u16 := 11
  const ERR_STORAGE: u16 := 12

  datatype Header = Header(magic: u32, version: u16, flags: u16, op: u16, recordType: u16, payloadLen: u32,
                           key: u64, sequence: u64)

  /** A header with the fixed fields filled in. */
  function New(op: u16, recordType: u16, flags: u16, payloadLen: u32, key: u64, sequence: u64): Header {
    Header(MAGIC, VERSION, flags, op, recordType, payloadLen, key, sequence)
  }

  function Encode(h: Header): (s: seq<byte>)
    ensures |s| == HEADER
  {
    ToLe(h.magic, 4) + ToLe(h.version, 2) + ToLe(h.flags, 2) + ToLe(h.op, 2) + ToLe(h.recordType, 2)
    + ToLe(h.payloadLen, 4) + ToLe(h.key, 8) + ToLe(h.sequence, 8)
  }

  function Le16(s: seq<byte>): u16
    requires |s| == 2
  {
    Pow256Values();
    FromLe(s)
  }

  function Le32(s: seq<byte>): u32
    requires |s| == 4
  {
    Pow256Values();
    FromLe(s)
  }

  function Le64(s: seq<byte>): u64
    requires |s| == 8
  {
    Pow256Values();
    FromLe(s)
  }

  /** What the first thirty-two bytes say, whatever they are. */
  function Fields(s: seq<byte>): Header
    requires |s| >= HEADER
  {
    Header(Le32(s[0..4]), Le16(s[4..6]), Le16(s[6..8]), Le16(s[8..10]), Le16(s[10..12]), Le32(s[12..16]),
           Le64(s[16..24]), Le64(s[24..32]))
  }

  function Decode(s: seq<byte>): Option<Header> {
    if |s| < HEADER || Fields(s).magic != MAGIC then None else Some(Fields(s))
  }

  lemma LeBack16(x: u16)
    ensures Le16(ToLe(x, 2)) == x
  {
    Pow256Values();
    FromToLe(x, 2);
  }

  lemma LeBack32(x: u32)
    ensures Le32(ToLe(x, 4)) == x
  {
    Pow256Values();
    FromToLe(x, 4);
  }

  lemma LeBack64(x: u64)
    ensures Le64(ToLe(x, 8)) == x
  {
    Pow256Values();
    FromToLe(x, 8);
  }

  lemma Pieces(h: Header, t: seq<byte>)
    ensures var s := Encode(h) + t;
      && s[0..4] == ToLe(h.magic, 4) && s[4..6] == ToLe(h.version, 2) && s[6..8] == ToLe(h.flags, 2)
      && s[8..10] == ToLe(h.op, 2) && s[10..12] == ToLe(h.recordType, 2) && s[12..16] == ToLe(h.payloadLen, 4)
      && s[16..24] == ToLe(h.key, 8) && s[24..32] == ToLe(h.sequence, 8)
  {
    hide ToLe;
  }

  /** Decoding inverts encoding, whatever follows the header. */
  lemma EncodeDecodes(h: Header, t: seq<byte>)
    ensures Fields(Encode(h) + t) == h
    ensures h.magic == MAGIC ==> Decode(Encode(h) + t) == Some(h)
  {
    hide ToLe, Le16, Le32, Le64;
    Pieces(h, t);
    LeBack32(h.magic);
    LeBack16(h.version);
    LeBack16(h.flags);
    LeBack16(h.op);
    LeBack16(h.recordType);
    LeBack32(h.payloadLen);
    LeBack64(h.key);
    LeBack64(h.sequence);
    hide Encode;
  }

  lemma LeForth(s: seq<byte>)
    ensures |s| == 2 ==> ToLe(Le16(s), 2) == s
    ensures |s| == 4 ==> ToLe(Le32(s), 4) == s
    ensures |s| == 8 ==> ToLe(Le64(s), 8) == s
  {
    ToFromLe(s);
  }

  /** Every thirty-two bytes are the header they decode to: nothing is lost either way. */
  lemma DecodeEncodes(s: seq<byte>)
    requires |s| >= HEADER
    ensures Encode(Fields(s)) == s[..HEADER]
  {
    hide ToLe, Le16, Le32, Le64;
    LeForth(s[0..4]);
    LeForth(s[4..6]);
    LeForth(s[6..8]);
    LeForth(s[8..10]);
    LeForth(s[10..12]);
    LeForth(s[12..16]);
    LeForth(s[16..24]);
    LeForth(s[24..32]);
    assert s[..HEADER] == s[0..4] + s[4..6] + s[6..8] + s[8..10] + s[10..12] + s[12..16] + s[16..24] + s[24..32];
  }

  /** The payload of an error answer without text. */
  function ErrBody(code: u16): (s: seq<byte>)
    ensures |s| == 8
  {
    ToLe(code, 2) + ToLe(0, 2) + ToLe(0, 4)
  }

  // ---- payloads ----

  const MAX_NAME: nat := 64
  const HELLO_SIZE: nat := 16
  const READ_SIZE: nat := 8
  const SUBSCRIBE_SIZE: nat := 16

  /** The session an opening asks for, when the name behind it is as long as it says. */
  function HelloSession(p: seq<byte>): Option<u64> {
    if |p| < HELLO_SIZE || Le16(p[8..10]) > MAX_NAME || Le16(p[8..10]) != |p| - HELLO_SIZE then None
    else Some(Le64(p[0..8]))
  }

  /** How an opening is laid out; the name follows the fixed part. */
  function Hello(session: u64, name: seq<byte>): seq<byte>
    requires |name| <= MAX_NAME
  {
    ToLe(session, 8) + ToLe(|name|, 2) + ToLe(0, 2) + ToLe(0, 4) + name
  }

  /** An opening is taken for what it was sent as, and cut short or drawn out it is refused. */
  lemma HelloExact(session: u64, name: seq<byte>, p: seq<byte>)
    requires |name| <= MAX_NAME && |p| >= 10 && p[..10] == Hello(session, name)[..10]
    ensures HelloSession(p) == if |p| == |Hello(session, name)| then Some(session) else None
  {
    hide ToLe, Le16, Le64;
    var h := Hello(session, name);
    assert p[0..8] == p[..10][0..8] && p[8..10] == p[..10][8..10];
    assert h[..10][0..8] == ToLe(session, 8) && h[..10][8..10] == ToLe(|name|, 2);
    LeBack64(session);
    LeBack16(|name|);
  }

  /** What a READ waits for, and what a SUBSCRIBE waits for and starts from. */
  function ReadMin(p: seq<byte>): Option<u64> {
    if |p| < READ_SIZE then None else Some(Le64(p[0..8]))
  }

  function SubscribeMin(p: seq<byte>): Option<u64> {
    if |p| < SUBSCRIBE_SIZE then None else Some(Le64(p[0..8]))
  }

  function SubscribeFrom(p: seq<byte>): u64 {
    if |p| < SUBSCRIBE_SIZE then 0 else Le64(p[8..16])
  }
}
