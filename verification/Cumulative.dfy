/**
 What an acknowledgement says of the client's own numbering: that everything up
 to the client sequence it names has the copies its flags promise. When the
 slot it came from makes that so, and when a resend does not.
 */
module Cumulative {
  import opened Wrappers
  import opened SessionLog
  import opened Acks

  /** Record i of the log has sequence origin + i; the session's records up to clientSeq are within walSeq. */
  ghost predicate Covers(log: seq<Sent>, origin: nat, session: nat, clientSeq: nat, walSeq: nat) {
    forall i :: 0 <= i < |log| && log[i].session == session && log[i].clientSeq <= clientSeq ==> origin + i <= walSeq
  }

  function Min(a: nat, b: nat): nat {
    if a < b then a else b
  }

  /**
   Whatever the replicas confirm and this node flushes from now on, the
   acknowledgement this slot ends in, if it promises two copies, is true of
   every record of the session up to the client sequence it names.
   */
  ghost predicate Honest(log: seq<Sent>, origin: nat, session: nat, a: Slot) {
    forall best: nat, live: bool, durable: nat, tick: nat ::
      var r := EmitRepl(Client(CLEAR, a), best, live, durable, tick);
      r.Some? && r.value.Ack? && !r.value.flags.degraded ==>
        Covers(log, origin, session, r.value.clientSeq, Min(best, durable))
  }

  /** That is so exactly when the sequence the slot waits for covers the one it will name. */
  lemma HonestIff(log: seq<Sent>, origin: nat, session: nat, a: Slot)
    requires a.due && !a.flags.degraded
    ensures Honest(log, origin, session, a) <==> Covers(log, origin, session, a.clientSeq, a.walSeq)
  {
    if Honest(log, origin, session, a) {
      var r := EmitRepl(Client(CLEAR, a), a.walSeq, true, a.walSeq, 0);
      assert r == Some(Ack(a.flags, a.walSeq, a.clientSeq));
    }
  }

  /**
   A resend is put in the slot with the session's mark and the sequence flushed
   so far. The slot is honest if and only if the session's last record is
   flushed already, or is one the slot was waiting for.
   */
  lemma ResendHonestIff(log: seq<Sent>, origin: nat, session: nat, durable: nat, a: Slot, ask: Ask, tick: nat)
    requires a.clientSeq <= Highest(log, session) && (!a.due ==> a == CLEAR)
    requires ask.flags.replicated && !a.flags.degraded
    ensures var c := Owe(Client(CLEAR, a), true, tick, ask, Highest(log, session), durable);
      c.repl.due && (Honest(log, origin, session, c.repl) <==>
        LastAt(log, session) < 0 || origin + LastAt(log, session) <= Max(a.walSeq, durable))
  {
    var c := Owe(Client(CLEAR, a), true, tick, ask, Highest(log, session), durable);
    HighestIs(log, session);
    LastAtIs(log, session);
    HonestIff(log, origin, session, c.repl);
    hide Highest;
  }

  // ---- whole runs ----

  /**
   What can befall a slot of one session: a write owed in it, a resend owed in
   it, a record of any session owed elsewhere, a flush, or its answer.
   */
  datatype Event = Wrote(clientSeq: nat, ask: Ask) | Resent(ask: Ask) | Elsewhere(r: Sent) | Flushed | Answered

  datatype Book = Book(log: seq<Sent>, durable: nat, slot: Slot)

  predicate Enabled(b: Book, session: nat, e: Event) {
    match e
    case Wrote(clientSeq, ask) => clientSeq > Highest(b.log, session) && ask.flags.replicated
    case Resent(ask) => ask.flags.replicated
    case Elsewhere(r) => r.clientSeq > Highest(b.log, r.session)
    case Flushed => true
    case Answered => true
  }

  function Owing(a: Slot, ask: Ask, tick: nat, clientSeq: nat, walSeq: nat): Slot {
    Owe(Client(CLEAR, a), true, tick, ask, clientSeq, walSeq).repl
  }

  function Next(b: Book, origin: nat, session: nat, tick: nat, e: Event): Book
    requires 0 < origin
  {
    match e
    case Wrote(clientSeq, ask) =>
      b.(log := b.log + [Sent(session, clientSeq)], slot := Owing(b.slot, ask, tick, clientSeq, origin + |b.log|))
    case Resent(ask) => b.(slot := Owing(b.slot, ask, tick, Highest(b.log, session), b.durable))
    case Elsewhere(r) => b.(log := b.log + [r])
    case Flushed => b.(durable := origin + |b.log| - 1)
    case Answered => b.(slot := CLEAR)
  }

  /** Resends come only when the session's last record is flushed, or is one the slot waits for. */
  predicate Prompt(b: Book, origin: nat, session: nat, e: Event) {
    e.Resent? ==> LastAt(b.log, session) < 0 || origin + LastAt(b.log, session) <= Max(b.slot.walSeq, b.durable)
  }

  ghost predicate RunsPromptly(b: Book, origin: nat, session: nat, ticks: nat, es: seq<Event>)
    requires 0 < origin
    decreases |es|
  {
    es == [] ||
    (&& Enabled(b, session, es[0]) && Prompt(b, origin, session, es[0])
     && RunsPromptly(Next(b, origin, session, ticks, es[0]), origin, session, ticks + 1, es[1..]))
  }

  function EndOf(b: Book, origin: nat, session: nat, ticks: nat, es: seq<Event>): Book
    requires 0 < origin
    decreases |es|
  {
    if es == [] then b else EndOf(Next(b, origin, session, ticks, es[0]), origin, session, ticks + 1, es[1..])
  }

  ghost predicate Right(b: Book, origin: nat, session: nat) {
    && (!b.slot.due ==> b.slot == CLEAR) && !b.slot.flags.degraded
    && b.slot.clientSeq <= Highest(b.log, session)
    && (b.slot.due ==> Covers(b.log, origin, session, b.slot.clientSeq, b.slot.walSeq))
  }

  lemma HighestPush(log: seq<Sent>, r: Sent, session: nat)
    ensures Highest(log + [r], session) ==
      if r.session == session && r.clientSeq > Highest(log, session) then r.clientSeq else Highest(log, session)
  {
    assert (log + [r])[..|log|] == log;
  }

  lemma CoversMore(log: seq<Sent>, origin: nat, session: nat, a: Slot, r: Sent)
    requires Covers(log, origin, session, a.clientSeq, a.walSeq) && (r.session == session ==> a.clientSeq < r.clientSeq)
    ensures Covers(log + [r], origin, session, a.clientSeq, a.walSeq)
  {
    var more := log + [r];
    assert forall i :: 0 <= i < |log| ==> more[i] == log[i];
  }

  lemma StepRight(b: Book, origin: nat, session: nat, tick: nat, e: Event)
    requires 0 < origin && Right(b, origin, session) && Enabled(b, session, e) && Prompt(b, origin, session, e)
    ensures Right(Next(b, origin, session, tick, e), origin, session)
  {
    hide Highest, LastAt, Covers;
    match e
    case Wrote(clientSeq, _) =>
      HighestPush(b.log, Sent(session, clientSeq), session);
      AllCovered(b.log + [Sent(session, clientSeq)], origin, session, clientSeq,
                 Next(b, origin, session, tick, e).slot.walSeq);
    case Resent(_) =>
      HighestIs(b.log, session);
      LastAtIs(b.log, session);
      UpToLast(b.log, origin, session, Next(b, origin, session, tick, e).slot);
    case Elsewhere(r) =>
      HighestPush(b.log, r, session);
      if b.slot.due { CoversMore(b.log, origin, session, b.slot, r); }
    case Flushed =>
    case Answered =>
  }

  lemma AllCovered(log: seq<Sent>, origin: nat, session: nat, clientSeq: nat, walSeq: nat)
    requires walSeq + 1 >= origin + |log|
    ensures Covers(log, origin, session, clientSeq, walSeq)
  {}

  lemma UpToLast(log: seq<Sent>, origin: nat, session: nat, a: Slot)
    requires LastAt(log, session) < 0 || origin + LastAt(log, session) <= a.walSeq
    ensures Covers(log, origin, session, a.clientSeq, a.walSeq)
  {
    LastAtIs(log, session);
    hide LastAt;
  }

  lemma {:induction false} RunRight(b: Book, origin: nat, session: nat, ticks: nat, es: seq<Event>)
    requires 0 < origin && Right(b, origin, session) && RunsPromptly(b, origin, session, ticks, es)
    ensures Right(EndOf(b, origin, session, ticks, es), origin, session)
    decreases |es|
  {
    hide Right, Next, Enabled, Prompt;
    if es != [] {
      StepRight(b, origin, session, ticks, es[0]);
      RunRight(Next(b, origin, session, ticks, es[0]), origin, session, ticks + 1, es[1..]);
    }
  }

  /**
   In every run in which resends are prompt, whatever else is written by
   whomever, a slot that owes something is honest.
   */
  lemma PromptHonest(log: seq<Sent>, origin: nat, session: nat, durable: nat, ticks: nat, es: seq<Event>)
    requires 0 < origin && RunsPromptly(Book(log, durable, CLEAR), origin, session, ticks, es)
    ensures var b := EndOf(Book(log, durable, CLEAR), origin, session, ticks, es);
      b.slot.due ==> Honest(b.log, origin, session, b.slot)
  {
    RunRight(Book(log, durable, CLEAR), origin, session, ticks, es);
    hide RunsPromptly, EndOf;
    var b := EndOf(Book(log, durable, CLEAR), origin, session, ticks, es);
    if b.slot.due { HonestIff(b.log, origin, session, b.slot); }
  }

  const COPIED := Ask(Flags(true, true, true, false), false)

  /**
   Two connections of one session: the first writes, and before anything is
   flushed the second resends the same, asking for two copies. The replica has
   confirmed only what came before, yet the second is told at the next pass
   that its write has its copy.
   */
  lemma UnflushedResend(session: nat, tick: nat)
    ensures var log := [Sent(session, 1), Sent(session, 2)];
      var c := Owe(Client(CLEAR, CLEAR), true, tick, COPIED, Highest(log, session), 1);
      && Highest(log, session) == 2
      && EmitRepl(c, 1, true, 2, tick) == Some(Ack(COPIED.flags, 1, 2))
      && !Covers(log, 1, session, 2, 1) && !Honest(log, 1, session, c.repl)
  {
    var log := [Sent(session, 1), Sent(session, 2)];
    TwoWrites(log, session);
    var c := Owe(Client(CLEAR, CLEAR), true, tick, COPIED, Highest(log, session), 1);
    hide Highest;
    assert log[1].clientSeq == 2;
    HonestIff(log, 1, session, c.repl);
  }

  lemma TwoWrites(log: seq<Sent>, session: nat)
    requires log == [Sent(session, 1), Sent(session, 2)]
    ensures Highest(log, session) == 2
  {
    assert log[..1] == [Sent(session, 1)];
    assert log[..1][..0] == [];
    assert Highest(log[..1][..0], session) == 0;
    assert Highest(log[..1], session) == 1;
  }
}
