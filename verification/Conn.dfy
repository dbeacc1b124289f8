/**
 Connection framing: a receive buffer parsed in place, proved against a parser
 that sees the whole stream at once.
 */
module Conn {
  import opened Bytes
  import opened Msg

  datatype Action = Frame(header: Header, payload: seq<byte>) | ReplyErr(code: u16, sequence: u64) | Close

  /** What the front of the unparsed bytes amounts to. */
  datatype Look = More | Fatal(code: u16, sequence: u64) | Got(header: Header)

  /** What a parser has made of a stream so far. */
  datatype Parsed = Parsed(actions: seq<Action>, rest: seq<byte>, begun: bool, closed: bool)

  /** `strict` is a client's connection, which opens with one opening frame. */
  datatype Rules = Rules(strict: bool, cap: nat)

  predicate Opens(op: u16) {
    op == OP_HELLO || op == OP_REPL_START
  }

  function Examine(c: Rules, begun: bool, s: seq<byte>): (r: Look)
    ensures r.Got? ==> HEADER + r.header.payloadLen <= |s|
  {
    if |s| < HEADER then More
    else
      var h := Fields(s);
      if h.magic != MAGIC then Fatal(ERR_BAD_MAGIC, 0)
      else if h.version < VERSION_MIN || h.version > VERSION then Fatal(ERR_BAD_VERSION, h.sequence)
      else if h.op < OP_MIN || h.op > OP_MAX then Fatal(ERR_BAD_OP, h.sequence)
      else if h.payloadLen > MAX_PAYLOAD || h.payloadLen > c.cap - HEADER then Fatal(ERR_PAYLOAD_TOO_BIG, h.sequence)
      else if c.strict && Opens(h.op) == begun then Fatal(ERR_NO_SESSION, h.sequence)
      else if |s| < HEADER + h.payloadLen then More
      else Got(h)
  }

  function SizeOf(h: Header): nat {
    HEADER + h.payloadLen
  }

  function PayloadOf(s: seq<byte>, h: Header): seq<byte>
    requires SizeOf(h) <= |s|
  {
    s[HEADER..SizeOf(h)]
  }

  /** The whole stream at once, as many frames as it holds. */
  function ParseAll(c: Rules, begun: bool, s: seq<byte>): Parsed
    decreases |s|
  {
    match Examine(c, begun, s)
    case More => Parsed([], s, begun, false)
    case Fatal(code, sequence) => Parsed([ReplyErr(code, sequence), Close], [], begun, true)
    case Got(h) => Before(Frame(h, PayloadOf(s, h)), ParseAll(c, begun || Opens(h.op), s[SizeOf(h)..]))
  }

  function Before(a: Action, p: Parsed): Parsed {
    p.(actions := [a] + p.actions)
  }

  /** At most n actions; the last slot of all is not enough for an error and a close. */
  function ParseSome(c: Rules, begun: bool, s: seq<byte>, n: nat): (p: Parsed)
    ensures |p.actions| <= n
    decreases n
  {
    if n == 0 then Parsed([], s, begun, false)
    else
      match Examine(c, begun, s)
      case More => Parsed([], s, begun, false)
      case Fatal(code, sequence) =>
        Parsed(if n == 1 then [ReplyErr(code, sequence)] else [ReplyErr(code, sequence), Close], [], begun, true)
      case Got(h) => Before(Frame(h, PayloadOf(s, h)), ParseSome(c, begun || Opens(h.op), s[SizeOf(h)..], n - 1))
  }

  function NoClose(a: seq<Action>): seq<Action> {
    if a != [] && a[|a| - 1].Close? then a[..|a| - 1] else a
  }

  // ---- nothing depends on how the stream was cut ----

  /** What the front amounts to does not change when more arrives behind it. */
  lemma ExamineMore(c: Rules, begun: bool, s: seq<byte>, t: seq<byte>)
    requires !Examine(c, begun, s).More?
    ensures Examine(c, begun, s + t) == Examine(c, begun, s)
    ensures Examine(c, begun, s).Got? ==>
      var h := Examine(c, begun, s).header;
      PayloadOf(s + t, h) == PayloadOf(s, h) && (s + t)[SizeOf(h)..] == s[SizeOf(h)..] + t
  {
    FieldsMore(s, t);
    hide Fields;
  }

  lemma FieldsMore(s: seq<byte>, t: seq<byte>)
    requires |s| >= HEADER
    ensures Fields(s + t) == Fields(s)
  {
    hide Le16, Le32, Le64;
    var u := s + t;
    assert u[0..4] == s[0..4] && u[4..6] == s[4..6] && u[6..8] == s[6..8] && u[8..10] == s[8..10];
    assert u[10..12] == s[10..12] && u[12..16] == s[12..16] && u[16..24] == s[16..24] && u[24..32] == s[24..32];
  }

  /** p's actions put before those of the parse that goes on from it. */
  function Joined(p: seq<Action>, q: Parsed): Parsed {
    q.(actions := p + q.actions)
  }

  /** Parsing a stream is parsing a first part of it and going on from what is left. */
  lemma {:induction false} ParseSplit(c: Rules, begun: bool, s: seq<byte>, t: seq<byte>)
    ensures var p := ParseAll(c, begun, s);
      ParseAll(c, begun, s + t) == if p.closed then p else Joined(p.actions, ParseAll(c, p.begun, p.rest + t))
    decreases |s|
  {
    hide Examine;
    match Examine(c, begun, s)
    case More => JoinNothing(ParseAll(c, begun, s + t));
    case Fatal(_, _) => ExamineMore(c, begun, s, t);
    case Got(h) =>
      ExamineMore(c, begun, s, t);
      ParseSplit(c, begun || Opens(h.op), s[SizeOf(h)..], t);
      var p := ParseAll(c, begun || Opens(h.op), s[SizeOf(h)..]);
      JoinBefore(Frame(h, PayloadOf(s, h)), p.actions, ParseAll(c, p.begun, p.rest + t));
  }

  lemma JoinNothing(q: Parsed)
    ensures Joined([], q) == q
  {
    assert [] + q.actions == q.actions;
  }

  lemma JoinBefore(a: Action, p: seq<Action>, q: Parsed)
    ensures Before(a, Joined(p, q)) == Joined([a] + p, q)
  {
    assert [a] + (p + q.actions) == ([a] + p) + q.actions;
  }

  lemma JoinJoin(p: seq<Action>, q: seq<Action>, r: Parsed)
    ensures Joined(p, Joined(q, r)) == Joined(p + q, r)
  {
    assert p + (q + r.actions) == (p + q) + r.actions;
  }

  /** Taking a few actions and going on later comes to the same, but for a CLOSE that found no slot. */
  lemma {:induction false} ParseLater(c: Rules, begun: bool, s: seq<byte>, n: nat)
    ensures var p, all := ParseSome(c, begun, s, n), ParseAll(c, begun, s);
      if p.closed then
        all.closed && all.rest == p.rest && all.begun == p.begun && NoClose(all.actions) == NoClose(p.actions)
      else all == Joined(p.actions, ParseAll(c, p.begun, p.rest))
    decreases n
  {
    hide Examine, Joined, NoClose;
    JoinNothing(ParseAll(c, begun, s));
    if n > 0 {
      match Examine(c, begun, s)
      case More =>
      case Fatal(code, sequence) =>
        NoCloseError(ReplyErr(code, sequence));
      case Got(h) =>
        ParseLater(c, begun || Opens(h.op), s[SizeOf(h)..], n - 1);
        var p := ParseSome(c, begun || Opens(h.op), s[SizeOf(h)..], n - 1);
        var all := ParseAll(c, begun || Opens(h.op), s[SizeOf(h)..]);
        if p.closed {
          NoCloseBefore(Frame(h, PayloadOf(s, h)), p.actions);
          NoCloseBefore(Frame(h, PayloadOf(s, h)), all.actions);
        } else {
          JoinBefore(Frame(h, PayloadOf(s, h)), p.actions, ParseAll(c, p.begun, p.rest));
        }
    }
  }

  lemma NoCloseError(e: Action)
    requires !e.Close?
    ensures NoClose([e]) == NoClose([e, Close]) == [e]
  {
    assert [e, Close][..1] == [e];
  }

  lemma NoCloseBefore(a: Action, p: seq<Action>)
    requires !a.Close?
    ensures NoClose([a] + p) == [a] + NoClose(p)
  {
    if p == [] {
      assert [a] + p == [a];
    } else if p[|p| - 1].Close? {
      assert ([a] + p)[..|p|] == [a] + p[..|p| - 1];
    }
  }

  // ---- whole runs of receives and feeds ----

  datatype Op = Receive(bytes: seq<byte>) | Feed(slots: nat)

  /** Where a connection stands: what is unparsed, what has been emitted, what was ever accepted. */
  datatype Stand = Stand(rest: seq<byte>, begun: bool, closed: bool, out: seq<Action>, taken: seq<byte>)

  /** Bytes beyond the room there is are left with the caller; a closed connection takes none. */
  function Accepted(c: Rules, unparsed: nat, closed: bool, n: nat): (k: nat)
    ensures k <= n && (closed ==> k == 0) && (unparsed <= c.cap ==> unparsed + k <= c.cap)
    ensures !closed && k < n ==> c.cap <= unparsed + k
  {
    if closed || unparsed > c.cap then 0 else if n < c.cap - unparsed then n else c.cap - unparsed
  }

  function Next(c: Rules, x: Stand, op: Op): Stand {
    match op
    case Receive(b) =>
      var k := Accepted(c, |x.rest|, x.closed, |b|);
      x.(rest := x.rest + b[..k], taken := x.taken + b[..k])
    case Feed(n) =>
      if x.closed then x
      else
        var p := ParseSome(c, x.begun, x.rest, n);
        Stand(p.rest, p.begun, p.closed, x.out + p.actions, x.taken)
  }

  function Run(c: Rules, ops: seq<Op>): Stand {
    if ops == [] then Stand([], false, false, [], [])
    else Next(c, Run(c, ops[..|ops| - 1]), ops[|ops| - 1])
  }

  /** What has come out, and what still will, is what the whole stream parses to. */
  ghost predicate Agrees(c: Rules, x: Stand) {
    var all := ParseAll(c, false, x.taken);
    if x.closed then all.closed && x.rest == [] && NoClose(all.actions) == NoClose(x.out)
    else all == Joined(x.out, ParseAll(c, x.begun, x.rest)) && (forall i :: 0 <= i < |x.out| ==> !x.out[i].Close?)
  }

  lemma {:induction false} NextAgrees(c: Rules, x: Stand, op: Op)
    requires Agrees(c, x)
    ensures Agrees(c, Next(c, x, op))
  {
    hide ParseAll, ParseSome;
    match op
    case Receive(b) =>
      var t := b[..Accepted(c, |x.rest|, x.closed, |b|)];
      ParseSplit(c, false, x.taken, t);
      if x.closed {
        assert t == [] && x.rest + t == x.rest && x.taken + t == x.taken;
      } else {
        ParseSplit(c, x.begun, x.rest, t);
        ReceiveAgrees(c, x, t);
      }
    case Feed(n) =>
      if !x.closed {
        ParseLater(c, x.begun, x.rest, n);
        ClosesLast(c, x.begun, x.rest, n);
        var p := ParseSome(c, x.begun, x.rest, n);
        if p.closed {
          NoCloseJoin(x.out, p.actions);
          NoCloseJoin(x.out, ParseAll(c, x.begun, x.rest).actions);
        } else {
          JoinJoin(x.out, p.actions, ParseAll(c, p.begun, p.rest));
        }
      }
  }

  lemma {:induction false} ReceiveAgrees(c: Rules, x: Stand, t: seq<byte>)
    requires Agrees(c, x) && !x.closed
    ensures ParseAll(c, false, x.taken + t) == Joined(x.out, ParseAll(c, x.begun, x.rest + t))
  {
    hide ParseAll;
    ParseSplit(c, false, x.taken, t);
    ParseSplit(c, x.begun, x.rest, t);
    var q := ParseAll(c, x.begun, x.rest);
    if !q.closed {
      JoinJoin(x.out, q.actions, ParseAll(c, q.begun, q.rest + t));
    }
  }

  lemma {:induction false} ClosesLast(c: Rules, begun: bool, s: seq<byte>, n: nat)
    ensures var p := ParseSome(c, begun, s, n);
      && (!p.closed ==> forall i :: 0 <= i < |p.actions| ==> !p.actions[i].Close?)
      && (p.closed ==> p.rest == [] && p.actions != [])
    decreases n
  {
    hide Examine;
    if n > 0 && Examine(c, begun, s).Got? {
      var h := Examine(c, begun, s).header;
      ClosesLast(c, begun || Opens(h.op), s[SizeOf(h)..], n - 1);
    }
  }

  lemma NoCloseJoin(p: seq<Action>, q: seq<Action>)
    requires forall i :: 0 <= i < |p| ==> !p[i].Close?
    ensures NoClose(p + q) == p + NoClose(q)
  {
    if q == [] {
      assert p + q == p;
    } else if q[|q| - 1].Close? {
      assert (p + q)[..|p| + |q| - 1] == p + q[..|q| - 1];
    }
  }

  lemma {:induction false} RunAgrees(c: Rules, ops: seq<Op>)
    ensures Agrees(c, Run(c, ops))
  {
    hide Agrees, Next;
    if ops == [] {
      StartAgrees(c, Run(c, ops));
    } else {
      RunAgrees(c, ops[..|ops| - 1]);
      NextAgrees(c, Run(c, ops[..|ops| - 1]), ops[|ops| - 1]);
    }
  }

  lemma StartAgrees(c: Rules, x: Stand)
    requires x == Stand([], false, false, [], [])
    ensures Agrees(c, x)
  {
    JoinNothing(ParseAll(c, false, []));
  }

  /**
   Chunking independence: however the stream was cut into receives and however
   many slots each feed was given, once a feed comes back empty-handed the
   frames and errors emitted are those of the whole stream parsed at once.
   */
  lemma ChunksDoNotMatter(c: Rules, ops: seq<Op>, slots: nat)
    requires slots > 0 && Next(c, Run(c, ops), Feed(slots)).out == Run(c, ops).out
    ensures NoClose(Run(c, ops).out) == NoClose(ParseAll(c, false, Run(c, ops).taken).actions)
    ensures Run(c, ops).closed <==> ParseAll(c, false, Run(c, ops).taken).closed
  {
    RunAgrees(c, ops);
    hide Run;
    var x := Run(c, ops);
    if !x.closed {
      ClosesLast(c, x.begun, x.rest, slots);
      EmptyHanded(c, x.begun, x.rest, slots);
      assert x.out + ParseSome(c, x.begun, x.rest, slots).actions == x.out;
      assert |ParseSome(c, x.begun, x.rest, slots).actions| == 0;
      assert x.out + [] == x.out;
    }
  }

  lemma EmptyHanded(c: Rules, begun: bool, s: seq<byte>, n: nat)
    requires n > 0
    ensures |ParseSome(c, begun, s, n).actions| == 0 <==> Examine(c, begun, s).More?
  {
    hide Examine;
  }

  /** A drained connection that is still open always has room for more. */
  lemma RoomLeft(c: Rules, begun: bool, s: seq<byte>)
    requires c.cap >= HEADER && Examine(c, begun, s).More?
    ensures |s| < c.cap
  {}

  // ---- when the CLOSE is lost ----

  /** The receive loop: feeds of so many slots until one comes back with nothing. */
  function Drained(c: Rules, begun: bool, s: seq<byte>, slots: nat): seq<Action>
    requires slots > 0
    decreases |s|
  {
    var p := ParseSome(c, begun, s, slots);
    SomeShrinks(c, begun, s, slots);
    if p.actions == [] || p.closed then p.actions else p.actions + Drained(c, p.begun, p.rest, slots)
  }

  lemma {:induction false} SomeShrinks(c: Rules, begun: bool, s: seq<byte>, n: nat)
    ensures var p := ParseSome(c, begun, s, n);
      |p.rest| <= |s| && (p.actions != [] && !p.closed ==> |p.rest| < |s|)
    decreases n
  {
    hide Examine;
    if n > 0 && Examine(c, begun, s).Got? {
      var h := Examine(c, begun, s).header;
      SomeShrinks(c, begun || Opens(h.op), s[SizeOf(h)..], n - 1);
    }
  }

  /** A fatal stream: the frames before the violation, the error, and CLOSE where it fits. */
  lemma {:induction false} SomeOfFatal(c: Rules, begun: bool, s: seq<byte>, n: nat)
    requires n > 0 && ParseAll(c, begun, s).closed
    ensures var p, frames := ParseSome(c, begun, s, n), |ParseAll(c, begun, s).actions| - 2;
      && frames >= 0
      && (p.closed <==> frames < n)
      && (p.closed ==> (Close in p.actions <==> frames + 1 < n))
      && (!p.closed ==> |p.actions| == n && Close !in p.actions)
      && (!p.closed ==> ParseAll(c, p.begun, p.rest).closed)
      && (!p.closed ==> |ParseAll(c, p.begun, p.rest).actions| == frames - n + 2)
    decreases n
  {
    hide Examine;
    if Examine(c, begun, s).Got? {
      var h := Examine(c, begun, s).header;
      var o, rest := begun || Opens(h.op), s[SizeOf(h)..];
      FatalLength(c, o, rest);
      if n > 1 {
        SomeOfFatal(c, o, rest, n - 1);
        assert ParseSome(c, begun, s, n).actions == [Frame(h, PayloadOf(s, h))] + ParseSome(c, o, rest, n - 1).actions;
      } else {
        assert ParseSome(c, o, rest, 0) == Parsed([], rest, o, false);
      }
    }
  }

  lemma {:induction false} FatalLength(c: Rules, begun: bool, s: seq<byte>)
    requires ParseAll(c, begun, s).closed
    ensures |ParseAll(c, begun, s).actions| >= 2
    decreases |s|
  {
    hide Examine;
    if Examine(c, begun, s).Got? {
      var h := Examine(c, begun, s).header;
      FatalLength(c, begun || Opens(h.op), s[SizeOf(h)..]);
    }
  }

  /** How many of so many frames come out of the last feed, after whole ones. */
  function LastFeed(frames: nat, slots: nat): nat
    requires slots > 0
  {
    if frames < slots then frames else LastFeed(frames - slots, slots)
  }

  /**
   Exactly when the loop is told to close: on a stream that breaks the rules
   after some number of frames, the CLOSE is lost if and only if those frames
   leave one slot of the last feed.
   */
  lemma {:induction false} CloseLost(c: Rules, begun: bool, s: seq<byte>, slots: nat)
    requires slots > 0 && ParseAll(c, begun, s).closed
    ensures var frames := |ParseAll(c, begun, s).actions| - 2;
      frames >= 0 && (Close !in Drained(c, begun, s, slots) <==> LastFeed(frames, slots) == slots - 1)
    decreases |s|
  {
    hide ParseSome, ParseAll;
    SomeOfFatal(c, begun, s, slots);
    SomeShrinks(c, begun, s, slots);
    var p, frames := ParseSome(c, begun, s, slots), |ParseAll(c, begun, s).actions| - 2;
    if !p.closed {
      CloseLost(c, p.begun, p.rest, slots);
      var more := Drained(c, p.begun, p.rest, slots);
      assert Drained(c, begun, s, slots) == p.actions + more;
      hide Drained;
      assert Close in p.actions + more <==> Close in more;
    }
  }

  // ---- legal frames come back as they were sent ----

  predicate LegalAt(c: Rules, begun: bool, h: Header, payload: seq<byte>) {
    && h.magic == MAGIC && VERSION_MIN <= h.version <= VERSION && OP_MIN <= h.op <= OP_MAX
    && h.payloadLen == |payload| <= MAX_PAYLOAD && HEADER + |payload| <= c.cap
    && (c.strict ==> Opens(h.op) != begun)
  }

  predicate Legal(c: Rules, begun: bool, frames: seq<Action>)
    decreases |frames|
  {
    frames == [] ||
    (frames[0].Frame? && LegalAt(c, begun, frames[0].header, frames[0].payload)
     && Legal(c, begun || Opens(frames[0].header.op), frames[1..]))
  }

  function Wire(frames: seq<Action>): seq<byte> {
    if frames == [] then []
    else (if frames[0].Frame? then Msg.Encode(frames[0].header) + frames[0].payload else []) + Wire(frames[1..])
  }

  /** A legal list of frames parses back to itself, with nothing left over. */
  lemma {:induction false} WireParses(c: Rules, begun: bool, frames: seq<Action>)
    requires Legal(c, begun, frames)
    ensures var p := ParseAll(c, begun, Wire(frames));
      p.actions == frames && p.rest == [] && !p.closed
    decreases |frames|
  {
    hide Fields, Encode;
    if frames != [] {
      var h, payload, rest := frames[0].header, frames[0].payload, Wire(frames[1..]);
      var s := Msg.Encode(h) + payload + rest;
      assert Wire(frames) == s;
      assert s == Msg.Encode(h) + (payload + rest);
      EncodeDecodes(h, payload + rest);
      assert Examine(c, begun, s) == Got(h);
      hide Examine;
      WireParses(c, begun || Opens(h.op), frames[1..]);
      assert s[SizeOf(h)..] == rest && PayloadOf(s, h) == payload;
      assert frames == [frames[0]] + frames[1..];
    }
  }

  // ---- and only legal frames are taken ----

  /** What is wrong with a header, by the first rule it breaks: its own number, or none. */
  ghost predicate Broken(c: Rules, begun: bool, h: Header, code: nat) {
    && (code == ERR_BAD_MAGIC <==> h.magic != MAGIC)
    && (code == ERR_BAD_VERSION <==> h.magic == MAGIC && !(VERSION_MIN <= h.version <= VERSION))
    && (code == ERR_BAD_OP <==>
          h.magic == MAGIC && VERSION_MIN <= h.version <= VERSION && !(OP_MIN <= h.op <= OP_MAX))
    && (code == ERR_PAYLOAD_TOO_BIG <==>
          && h.magic == MAGIC && VERSION_MIN <= h.version <= VERSION && OP_MIN <= h.op <= OP_MAX
          && (h.payloadLen > MAX_PAYLOAD || HEADER + h.payloadLen > c.cap))
    && (code == ERR_NO_SESSION <==>
          && h.magic == MAGIC && VERSION_MIN <= h.version <= VERSION && OP_MIN <= h.op <= OP_MAX
          && h.payloadLen <= MAX_PAYLOAD && HEADER + h.payloadLen <= c.cap
          && c.strict && (begun <==> h.op == OP_HELLO || h.op == OP_REPL_START))
    && code in {ERR_BAD_MAGIC, ERR_BAD_VERSION, ERR_BAD_OP, ERR_PAYLOAD_TOO_BIG, ERR_NO_SESSION}
  }

  /** It breaks none of them. */
  ghost predicate Sound(c: Rules, begun: bool, h: Header) {
    && h.magic == MAGIC && VERSION_MIN <= h.version <= VERSION && OP_MIN <= h.op <= OP_MAX
    && h.payloadLen <= MAX_PAYLOAD && HEADER + h.payloadLen <= c.cap
    && (c.strict ==> (begun <==> !(h.op == OP_HELLO || h.op == OP_REPL_START)))
  }

  /** A look at the front of the bytes, by what the header there says. */
  lemma LookIs(c: Rules, begun: bool, s: seq<byte>)
    ensures match Examine(c, begun, s)
      case More => |s| < HEADER || (Sound(c, begun, Fields(s)) && |s| < HEADER + Fields(s).payloadLen)
      case Fatal(code, sequence) =>
        && |s| >= HEADER && Broken(c, begun, Fields(s), code)
        && sequence == if code == ERR_BAD_MAGIC then 0 else Fields(s).sequence
      case Got(h) => |s| >= HEADER && h == Fields(s) && Sound(c, begun, h) && HEADER + h.payloadLen <= |s|
  {
    hide Fields;
  }

  /**
   What a parse of any stream comes to: legal frames, which are exactly the bytes
   they took up; and then either what is left is not yet a whole frame that
   breaks no rule, or its header breaks one, and the error answered is that of
   the first it breaks, under the sequence the header carries.
   */
  ghost predicate Outcome(c: Rules, begun: bool, s: seq<byte>, frames: seq<Action>, rest: seq<byte>, p: Parsed) {
    && Legal(c, begun, frames) && s == Wire(frames) + rest
    && var b := Begun(begun, frames);
       if p.closed then
         && |rest| >= HEADER && p.rest == []
         && |p.actions| == |frames| + 2 && p.actions[..|frames|] == frames && p.actions[|frames| + 1] == Close
         && p.actions[|frames|].ReplyErr? && Broken(c, b, Fields(rest), p.actions[|frames|].code)
         && p.actions[|frames|].sequence
            == if p.actions[|frames|].code == ERR_BAD_MAGIC then 0 else Fields(rest).sequence
       else
         && p.actions == frames && p.rest == rest && p.begun == b
         && (|rest| < HEADER || (Sound(c, b, Fields(rest)) && |rest| < HEADER + Fields(rest).payloadLen))
  }

  /** Whether an opening frame has come. */
  predicate Begun(begun: bool, frames: seq<Action>) {
    begun || exists i :: 0 <= i < |frames| && frames[i].Frame? && Opens(frames[i].header.op)
  }

  lemma BegunNext(begun: bool, f: Action, rest: seq<Action>)
    requires f.Frame?
    ensures Begun(begun, [f] + rest) == Begun(begun || Opens(f.header.op), rest)
  {
    var all := [f] + rest;
    assert all[0] == f && forall i :: 0 <= i < |rest| ==> all[i + 1] == rest[i];
  }

  lemma WireFirst(s: seq<byte>, h: Header, rest: seq<Action>)
    requires |s| >= SizeOf(h) && h == Fields(s)
    ensures Wire([Frame(h, PayloadOf(s, h))] + rest) == s[..SizeOf(h)] + Wire(rest)
  {
    hide Fields, Encode;
    DecodeEncodes(s);
    assert ([Frame(h, PayloadOf(s, h))] + rest)[1..] == rest;
    assert s[..HEADER] + s[HEADER..SizeOf(h)] == s[..SizeOf(h)];
  }

  lemma LegalFirst(c: Rules, begun: bool, s: seq<byte>, h: Header, rest: seq<Action>)
    requires |s| >= SizeOf(h) && Sound(c, begun, h) && Legal(c, begun || Opens(h.op), rest)
    ensures Legal(c, begun, [Frame(h, PayloadOf(s, h))] + rest)
  {
    assert ([Frame(h, PayloadOf(s, h))] + rest)[1..] == rest;
  }

  lemma FrameBefore(c: Rules, begun: bool, s: seq<byte>, h: Header, frames: seq<Action>, rest: seq<byte>, p: Parsed)
    requires |s| >= SizeOf(h) && h == Fields(s) && Sound(c, begun, h)
    requires Outcome(c, begun || Opens(h.op), s[SizeOf(h)..], frames, rest, p)
    ensures Outcome(c, begun, s, [Frame(h, PayloadOf(s, h))] + frames, rest, Before(Frame(h, PayloadOf(s, h)), p))
  {
    hide Fields, Legal, Wire, Broken, Sound, Begun, Opens;
    var f := Frame(h, PayloadOf(s, h));
    WireFirst(s, h, frames);
    LegalFirst(c, begun, s, h, frames);
    BegunNext(begun, f, frames);
    assert s == s[..SizeOf(h)] + s[SizeOf(h)..];
    assert s[..SizeOf(h)] + (Wire(frames) + rest) == (s[..SizeOf(h)] + Wire(frames)) + rest;
    if p.closed {
      assert ([f] + p.actions)[..|frames| + 1] == [f] + p.actions[..|frames|];
    }
  }

  lemma {:induction false} OnlyLegal(c: Rules, begun: bool, s: seq<byte>) returns (frames: seq<Action>, rest: seq<byte>)
    ensures Outcome(c, begun, s, frames, rest, ParseAll(c, begun, s))
    decreases |s|
  {
    hide Examine, Fields, Broken, Sound;
    LookIs(c, begun, s);
    match Examine(c, begun, s)
    case More => frames, rest := [], s;
    case Fatal(code, sequence) => frames, rest := [], s;
    case Got(h) =>
      var more;
      more, rest := OnlyLegal(c, begun || Opens(h.op), s[SizeOf(h)..]);
      frames := [Frame(h, PayloadOf(s, h))] + more;
      hide Outcome, ParseAll;
      ParseGot(c, begun, s, h);
      FrameBefore(c, begun, s, h, more, rest, ParseAll(c, begun || Opens(h.op), s[SizeOf(h)..]));
  }

  lemma ParseGot(c: Rules, begun: bool, s: seq<byte>, h: Header)
    requires Examine(c, begun, s) == Got(h)
    ensures ParseAll(c, begun, s)
      == Before(Frame(h, PayloadOf(s, h)), ParseAll(c, begun || Opens(h.op), s[SizeOf(h)..]))
  {
    hide Examine;
  }

  lemma {:induction false} LegalFront(c: Rules, begun: bool, frames: seq<Action>, n: nat)
    requires Legal(c, begun, frames) && n <= |frames|
    ensures Legal(c, begun, frames[..n])
    decreases n
  {
    if n > 0 {
      LegalFront(c, begun || Opens(frames[0].header.op), frames[1..], n - 1);
      assert frames[..n][1..] == frames[1..][..n - 1];
    }
  }

  lemma {:induction false} LegalFrames(c: Rules, begun: bool, frames: seq<Action>)
    requires Legal(c, begun, frames)
    ensures forall i :: 0 <= i < |frames| ==> frames[i].Frame?
    decreases |frames|
  {
    if frames != [] {
      LegalFrames(c, begun || Opens(frames[0].header.op), frames[1..]);
    }
  }

  /** Frames, and behind them at most an error and a CLOSE. */
  ghost predicate Fronted(frames: seq<Action>, out: seq<Action>) {
    && frames <= out && |out| <= |frames| + 2
    && (forall i :: 0 <= i < |frames| ==> frames[i].Frame?)
    && (forall i :: |frames| <= i < |out| ==> !out[i].Frame?)
    && (|out| == |frames| + 2 ==> out[|frames| + 1] == Close)
  }

  /** A front part of such a list is one too, of fewer frames if it ends among them. */
  lemma FrontOf(frames: seq<Action>, all: seq<Action>, out: seq<Action>)
    requires Fronted(frames, all) && out <= all
    ensures Fronted(if |out| < |frames| then frames[..|out|] else frames, out)
  {}

  /** Nor does a last CLOSE matter. */
  lemma FrontClosed(frames: seq<Action>, all: seq<Action>, out: seq<Action>)
    requires Fronted(frames, all) && |all| == |frames| + 2 && all[|frames|].ReplyErr? && NoClose(all) == NoClose(out)
    ensures Fronted(frames, out)
  {
    assert NoClose(all) == all[..|frames| + 1];
    assert out == NoClose(all) || out == NoClose(all) + [Close];
  }

  lemma OutcomeFronts(c: Rules, s: seq<byte>, frames: seq<Action>, rest: seq<byte>, p: Parsed)
    requires Outcome(c, false, s, frames, rest, p)
    ensures Fronted(frames, p.actions) && (p.closed ==> |p.actions| == |frames| + 2 && p.actions[|frames|].ReplyErr?)
  {
    hide Legal, Broken, Sound, Wire, Begun, Fields;
    LegalFrames(c, false, frames);
  }

  /**
   Whatever arrives, however cut and however few slots each feed has: the frames
   emitted so far are a legal list, and at most an error and a CLOSE come after.
   */
  lemma EmittedLegal(c: Rules, ops: seq<Op>) returns (frames: seq<Action>)
    ensures Legal(c, false, frames) && Fronted(frames, Run(c, ops).out)
  {
    hide Run, Legal, Broken, Sound, Wire, Begun, Fields, ParseAll, Fronted, Outcome;
    RunAgrees(c, ops);
    var x, rest := Run(c, ops), [];
    frames, rest := OnlyLegal(c, false, x.taken);
    var all := ParseAll(c, false, x.taken);
    OutcomeFronts(c, x.taken, frames, rest, all);
    OutcomeLegal(c, x.taken, frames, rest, all);
    if x.closed {
      FrontClosed(frames, all.actions, x.out);
    } else {
      assert x.out <= all.actions;
      FrontOf(frames, all.actions, x.out);
      if |x.out| < |frames| {
        LegalFront(c, false, frames, |x.out|);
        frames := frames[..|x.out|];
      }
    }
  }

  lemma OutcomeLegal(c: Rules, s: seq<byte>, frames: seq<Action>, rest: seq<byte>, p: Parsed)
    requires Outcome(c, false, s, frames, rest, p)
    ensures Legal(c, false, frames)
  {
    hide Legal, Broken, Sound, Wire, Begun, Fields;
  }

  /** On a client's connection the first frame opens, and no later one does. */
  lemma {:induction false} OpensOnce(c: Rules, begun: bool, frames: seq<Action>)
    requires c.strict && Legal(c, begun, frames)
    ensures forall i :: 0 <= i < |frames| ==>
      && frames[i].Frame?
      && (frames[i].header.op == OP_HELLO || frames[i].header.op == OP_REPL_START <==> !begun && i == 0)
    decreases |frames|
  {
    if frames != [] {
      OpensOnce(c, true, frames[1..]);
    }
  }

  /** Legal frames and then a header with the wrong magic: the frames, the error and CLOSE, and when CLOSE is lost. */
  lemma BadMagicLost(c: Rules, frames: seq<Action>, bad: seq<byte>, slots: nat)
    requires Legal(c, false, frames) && |bad| >= HEADER && Fields(bad).magic != MAGIC && slots > 0
    ensures ParseAll(c, false, Wire(frames) + bad).actions == frames + [ReplyErr(ERR_BAD_MAGIC, 0), Close]
    ensures Close !in Drained(c, false, Wire(frames) + bad, slots) <==> LastFeed(|frames|, slots) == slots - 1
  {
    hide Legal, Wire, Drained, LastFeed, Fields;
    WireParses(c, false, frames);
    ParseSplit(c, false, Wire(frames), bad);
    var p := ParseAll(c, false, Wire(frames));
    BadMagic(c, p.begun, p.rest + bad, bad);
    hide ParseAll;
    CloseLost(c, false, Wire(frames) + bad, slots);
  }

  lemma BadMagic(c: Rules, begun: bool, s: seq<byte>, bad: seq<byte>)
    requires s == bad && |bad| >= HEADER && Fields(bad).magic != MAGIC
    ensures ParseAll(c, begun, s) == Parsed([ReplyErr(ERR_BAD_MAGIC, 0), Close], [], begun, true)
  {}

  /** An opening frame and n writes without payloads, as a client may send them. */
  function Opening(n: nat): seq<Action> {
    [Frame(New(OP_HELLO, 0, 0, 0, 0, 0), [])] + Writes(n)
  }

  function Writes(n: nat): (s: seq<Action>)
    ensures |s| == n
  {
    if n == 0 then [] else [Frame(New(OP_WRITE, 0, 0, 0, 0, 0), [])] + Writes(n - 1)
  }

  lemma {:induction false} WritesLegal(cap: nat, n: nat)
    requires HEADER <= cap
    ensures Legal(Rules(true, cap), true, Writes(n))
  {
    if n > 0 {
      WritesLegal(cap, n - 1);
      assert Writes(n)[1..] == Writes(n - 1);
    }
  }

  /**
   It happens: an opening frame, six writes and thirty-two zero bytes on a
   client's connection, with the eight slots the loop gives. The error goes out
   and nobody is told to close.
   */
  lemma SevenThenBad(cap: nat)
    requires HEADER <= cap
    ensures var c, s := Rules(true, cap), Wire(Opening(6)) + Zeros(HEADER);
      && Legal(c, false, Opening(6))
      && ParseAll(c, false, s).actions == Opening(6) + [ReplyErr(ERR_BAD_MAGIC, 0), Close]
      && Close !in Drained(c, false, s, 8)
  {
    hide Drained, ParseAll, Wire, Fields;
    WritesLegal(cap, 6);
    assert Opening(6)[1..] == Writes(6);
    assert Fields(Zeros(HEADER)).magic != MAGIC by { NoMagic(Zeros(HEADER)); }
    BadMagicLost(Rules(true, cap), Opening(6), Zeros(HEADER), 8);
  }

  lemma NoMagic(z: seq<byte>)
    requires |z| == HEADER && AllZero(z)
    ensures Fields(z).magic != MAGIC
  {
    FromLeZero(z[0..4]);
  }

  // ---- the buffer itself ----

  /** An action as it is handed out: a frame's payload is where it lies in the buffer. */
  datatype Out = FrameAt(header: Header, at: nat) | ErrOut(code: u16, sequence: u64) | CloseOut

  ghost function Read(buf: seq<byte>, o: Out): Action
    requires o.FrameAt? ==> o.at + o.header.payloadLen <= |buf|
  {
    match o
    case FrameAt(h, at) => Frame(h, buf[at..at + h.payloadLen])
    case ErrOut(code, sequence) => ReplyErr(code, sequence)
    case CloseOut => Close
  }

  ghost predicate Within(outs: seq<Out>, lo: nat, hi: nat) {
    forall i :: 0 <= i < |outs| && outs[i].FrameAt? ==>
      lo <= outs[i].at && outs[i].at + outs[i].header.payloadLen <= hi
  }

  /** What the payload positions hold, action by action. */
  ghost function ReadAll(buf: seq<byte>, outs: seq<Out>): (a: seq<Action>)
    requires Within(outs, 0, |buf|)
    ensures |a| == |outs|
  {
    seq(|outs|, i requires 0 <= i < |outs| => Read(buf, outs[i]))
  }

  class Connection {
    const buf: array<byte>
    var len: nat
    var off: nat
    var closed: bool
    var begun: bool
    const strict: bool

    ghost predicate Valid()
      reads this
    {
      off <= len <= buf.Length
    }

    ghost function Unparsed(): seq<byte>
      requires Valid()
      reads this, buf
    {
      buf[off..len]
    }

    function Terms(): Rules {
      Rules(strict, buf.Length)
    }

    constructor (buf: array<byte>, strict: bool)
      ensures this.buf == buf && this.strict == strict && Valid()
      ensures Unparsed() == [] && !closed && !begun
    {
      this.buf, this.strict, len, off, closed, begun := buf, strict, 0, 0, false, false;
    }

    /** Take back the room of everything parsed, moving what is unparsed to the front. */
    method Compact()
      requires Valid()
      modifies this, buf
      ensures Valid() && off == 0 && Unparsed() == old(Unparsed())
      ensures closed == old(closed) && begun == old(begun)
    {
      if off == 0 {
        return;
      }
      var tail := len - off;
      if tail > 0 {
        MemDown(buf, off, tail);
      }
      len := tail;
      off := 0;
      assert buf[..][..tail] == old(buf[off..len]);
    }

    method ReceiveAppend(src: seq<byte>) returns (n: nat)
      requires Valid()
      modifies this, buf
      ensures Valid() && n == Accepted(Terms(), |old(Unparsed())|, old(closed), |src|)
      ensures Unparsed() == old(Unparsed()) + src[..n]
      ensures closed == old(closed) && begun == old(begun)
    {
      if closed || |src| == 0 {
        return 0;
      }
      Compact();
      var space := buf.Length - len;
      n := if |src| < space then |src| else space;
      if n == 0 {
        return;
      }
      ghost var was := buf[..];
      MemPut(buf, len, src[..n]);
      len := len + n;
      assert buf[..][..len] == was[..len - n] + src[..n];
    }

    /** Bytes put straight into the free room are accounted for; the rest is not. */
    method ReceiveCommit(n: nat) returns (k: nat)
      requires Valid()
      modifies `len
      ensures Valid() && k == if closed then 0 else if n > buf.Length - old(len) then buf.Length - old(len) else n
      ensures len == old(len) + k && Unparsed() == old(Unparsed()) + buf[old(len)..old(len) + k]
    {
      if closed || n == 0 {
        return 0;
      }
      k := n;
      if k > buf.Length - len {
        k := buf.Length - len;
      }
      len := len + k;
    }

    /** What lies at the cursor, checked in the order that decides which error is answered. */
    method Inspect(cursor: nat) returns (look: Look)
      requires Valid() && cursor <= len
      ensures look == Examine(Terms(), begun, buf[cursor..len])
    {
      ghost var s := buf[cursor..len];
      var avail := len - cursor;
      if avail < HEADER {
        return More;
      }
      var h := Fields(buf[cursor..cursor + HEADER]);
      FieldsMore(buf[cursor..cursor + HEADER], buf[cursor + HEADER..len]);
      assert s == buf[cursor..cursor + HEADER] + buf[cursor + HEADER..len];
      if h.magic != MAGIC {
        return Fatal(ERR_BAD_MAGIC, 0);
      }
      if h.version < VERSION_MIN || h.version > VERSION {
        return Fatal(ERR_BAD_VERSION, h.sequence);
      }
      if h.op < OP_MIN || h.op > OP_MAX {
        return Fatal(ERR_BAD_OP, h.sequence);
      }
      if h.payloadLen > MAX_PAYLOAD || h.payloadLen > buf.Length - HEADER {
        return Fatal(ERR_PAYLOAD_TOO_BIG, h.sequence);
      }
      if strict {
        var opens := Opens(h.op);
        if (opens && begun) || (!opens && !begun) {
          return Fatal(ERR_NO_SESSION, h.sequence);
        }
      }
      if avail < HEADER + h.payloadLen {
        return More;
      }
      look := Got(h);
    }

    /** Up to `slots` actions from what has arrived; the bytes stay where the frames point. */
    method Feed(slots: nat) returns (outs: seq<Out>)
      requires Valid()
      modifies this
      ensures Valid() && len == old(len) && Within(outs, 0, buf.Length)
      ensures closed == (old(closed) || ParseSome(Terms(), old(begun), old(Unparsed()), slots).closed)
      ensures !old(closed) ==>
        var p := ParseSome(Terms(), old(begun), old(Unparsed()), slots);
        ReadAll(buf[..], outs) == p.actions && Unparsed() == p.rest && begun == p.begun
      ensures old(closed) ==> outs == [] && Unparsed() == old(Unparsed()) && begun == old(begun)
    {
      hide ParseSome, Examine, ReadAll, Joined, Within;
      outs := [];
      ghost var b, c := buf[..], Terms();
      ReadNone(b, outs);
      if closed {
        return;
      }
      var cursor := off;
      ghost var all := ParseSome(c, begun, b[off..len], slots);
      assert buf[off..len] == b[off..len];
      JoinNothing(all);
      while |outs| < slots
        invariant off == old(off) && len == old(len) && off <= cursor <= len && !closed && |outs| <= slots
        invariant Within(outs, 0, |b|)
        invariant all == Joined(ReadAll(b, outs), ParseSome(c, begun, b[cursor..len], slots - |outs|))
        decreases slots - |outs|
      {
        var look := Inspect(cursor);
        assert buf[cursor..len] == b[cursor..len];
        match look
        case More =>
          StepMore(c, begun, b[cursor..len], slots - |outs|, ReadAll(b, outs));
          break;
        case Fatal(code, sequence) =>
          StepFatal(c, begun, b, b[cursor..len], slots - |outs|, outs, code, sequence);
          closed := true;
          outs := outs + [ErrOut(code, sequence)];
          if |outs| < slots {
            outs := outs + [CloseOut];
          }
          cursor := len;
          break;
        case Got(h) =>
          StepGot(c, begun, b, cursor, len, slots - |outs|, outs, h);
          outs := outs + [FrameAt(h, cursor + HEADER)];
          cursor := cursor + HEADER + h.payloadLen;
          if h.op == OP_HELLO || h.op == OP_REPL_START {
            begun := true;
          }
      }
      off := cursor;
      if !closed && |outs| == slots {
        StepMore(c, begun, b[cursor..len], 0, ReadAll(b, outs));
      }
      assert buf[cursor..len] == b[cursor..len];
      assert all == Parsed(ReadAll(b, outs), b[cursor..len], begun, closed);
    }

    /** The receive loop: feed until one comes back with nothing. What is left then always leaves room. */
    method Drain(slots: nat) returns (outs: seq<Out>)
      requires Valid() && slots > 0 && !closed
      modifies this
      ensures Valid() && len == old(len) && Within(outs, 0, buf.Length)
      ensures ReadAll(buf[..], outs) == Drained(Terms(), old(begun), old(Unparsed()), slots)
      ensures !closed && buf.Length >= HEADER ==> |Unparsed()| < buf.Length
    {
      hide ParseSome, Examine, ReadAll, Within, Drained;
      outs := [];
      ghost var b, c := buf[..], Terms();
      ghost var all := Drained(c, begun, Unparsed(), slots);
      ReadNone(b, outs);
      while true
        invariant Valid() && len == old(len) && Within(outs, 0, |b|)
        invariant all == ReadAll(b, outs) + if closed then [] else Drained(c, begun, Unparsed(), slots)
        decreases if closed then 0 else 1, |Unparsed()|
      {
        if !closed {
          DrainedNext(c, begun, Unparsed(), slots);
        }
        var more := Feed(slots);
        ReadJoin(b, outs, more);
        outs := outs + more;
        if |more| == 0 {
          if !closed && buf.Length >= HEADER {
            RoomLeft(c, begun, Unparsed());
          }
          break;
        }
      }
    }
  }

  lemma ReadJoin(buf: seq<byte>, p: seq<Out>, q: seq<Out>)
    requires Within(p, 0, |buf|) && Within(q, 0, |buf|)
    ensures Within(p + q, 0, |buf|) && ReadAll(buf, p + q) == ReadAll(buf, p) + ReadAll(buf, q)
  {
    hide Read;
    assert ReadAll(buf, p + q) == ReadAll(buf, p) + ReadAll(buf, q);
  }

  lemma DrainedNext(c: Rules, begun: bool, s: seq<byte>, slots: nat)
    requires slots > 0
    ensures var p := ParseSome(c, begun, s, slots);
      && Drained(c, begun, s, slots) == p.actions + (if p.closed then [] else Drained(c, p.begun, p.rest, slots))
      && (!p.closed && p.actions != [] ==> |p.rest| < |s|)
      && (p.actions == [] ==> Drained(c, begun, s, slots) == [])
      && (!p.closed && p.actions == [] ==> p.rest == s && p.begun == begun && Examine(c, begun, s).More?)
  {
    hide ParseSome;
    SomeShrinks(c, begun, s, slots);
    NothingYet(c, begun, s, slots);
    var p := ParseSome(c, begun, s, slots);
    assert p.actions + [] == p.actions;
  }

  lemma NothingYet(c: Rules, begun: bool, s: seq<byte>, n: nat)
    requires n > 0
    ensures var p := ParseSome(c, begun, s, n);
      p.actions == [] ==> !p.closed && p.rest == s && p.begun == begun && Examine(c, begun, s).More?
  {
    hide Examine;
  }

  lemma ReadNone(buf: seq<byte>, outs: seq<Out>)
    requires outs == []
    ensures Within(outs, 0, |buf|) && ReadAll(buf, outs) == []
  {}

  lemma ReadPush(buf: seq<byte>, outs: seq<Out>, o: Out)
    requires Within(outs, 0, |buf|) && (o.FrameAt? ==> o.at + o.header.payloadLen <= |buf|)
    ensures Within(outs + [o], 0, |buf|)
    ensures ReadAll(buf, outs + [o]) == ReadAll(buf, outs) + [Read(buf, o)]
  {
    hide Read;
    assert ReadAll(buf, outs + [o]) == ReadAll(buf, outs) + [Read(buf, o)];
  }

  // One turn of the parsing loop, by what lies at the cursor.

  lemma StepMore(c: Rules, begun: bool, s: seq<byte>, n: nat, was: seq<Action>)
    requires n == 0 || Examine(c, begun, s).More?
    ensures Joined(was, ParseSome(c, begun, s, n)) == Parsed(was, s, begun, false)
  {
    assert was + [] == was;
  }

  lemma StepFatal(c: Rules, begun: bool, b: seq<byte>, s: seq<byte>, n: nat, outs: seq<Out>, code: u16, sequence: u64)
    requires n > 0 && Examine(c, begun, s) == Fatal(code, sequence) && Within(outs, 0, |b|)
    ensures var told := outs + [ErrOut(code, sequence)];
      var more := if n == 1 then told else told + [CloseOut];
      && Within(more, 0, |b|)
      && Joined(ReadAll(b, outs), ParseSome(c, begun, s, n)) == Parsed(ReadAll(b, more), [], begun, true)
  {
    hide Examine, ReadAll;
    var was, e := ReadAll(b, outs), ReplyErr(code, sequence);
    ReadPush(b, outs, ErrOut(code, sequence));
    ReadPush(b, outs + [ErrOut(code, sequence)], CloseOut);
    assert was + [e] + [Close] == was + [e, Close];
  }

  lemma SliceOfSlice(b: seq<byte>, lo: nat, hi: nat, i: nat, j: nat)
    requires lo <= hi <= |b| && i <= j <= hi - lo
    ensures b[lo..hi][i..j] == b[lo + i..lo + j]
    ensures b[lo..hi][i..] == b[lo + i..hi]
  {
    var x, y := b[lo..hi][i..j], b[lo + i..lo + j];
    assert |x| == |y| && forall k :: 0 <= k < j - i ==> x[k] == y[k];
    assert x == y;
    var v, w := b[lo..hi][i..], b[lo + i..hi];
    assert |v| == |w| && forall k :: 0 <= k < |v| ==> v[k] == w[k];
    assert v == w;
  }

  lemma StepGot(c: Rules, begun: bool, b: seq<byte>, cursor: nat, len: nat, n: nat, outs: seq<Out>, h: Header)
    requires n > 0 && cursor <= len <= |b| && Within(outs, 0, |b|)
    requires Examine(c, begun, b[cursor..len]) == Got(h)
    ensures var more := outs + [FrameAt(h, cursor + HEADER)];
      && cursor + SizeOf(h) <= len && Within(more, 0, |b|)
      && Joined(ReadAll(b, outs), ParseSome(c, begun, b[cursor..len], n)) ==
         Joined(ReadAll(b, more), ParseSome(c, begun || Opens(h.op), b[cursor + SizeOf(h)..len], n - 1))
  {
    hide Examine, ReadAll;
    var s, was := b[cursor..len], ReadAll(b, outs);
    ReadPush(b, outs, FrameAt(h, cursor + HEADER));
    var f, q := Frame(h, PayloadOf(s, h)), ParseSome(c, begun || Opens(h.op), s[SizeOf(h)..], n - 1);
    assert ParseSome(c, begun, s, n) == Before(f, q);
    SliceOfSlice(b, cursor, len, HEADER, SizeOf(h));
    hide Read, ParseSome;
    assert was + ([f] + q.actions) == was + [f] + q.actions;
  }
}
