/**
 What a client is answered, against an account of what it is owed: every write
 owed an acknowledgement is entered when it is owed and struck out when it is
 answered. Which answer the account ends in, and when.
 */
module Answers {
  import opened Wrappers
  import opened Acks

  /** One write owed an acknowledgement: what it asked for, its two sequences, and when it began to wait. */
  datatype Due = Due(ask: Ask, clientSeq: nat, walSeq: nat, tick: nat)

  /** A connection's slots, and what they stand for: answered by the next flush, or waiting for a replica. */
  datatype Book = Book(slots: Client, here: seq<Due>, copies: seq<Due>)

  datatype Event =
    | Owes(ask: Ask, clientSeq: nat, walSeq: nat, live: bool, tick: nat)
    | Pass(best: nat, live: bool, durable: nat, tick: nat)

  /** A write waits for a replica if it asked for two copies and somebody is attached. */
  function Entered(b: Book, e: Event): Book
    requires e.Owes?
  {
    var d := Due(e.ask, e.clientSeq, e.walSeq, e.tick);
    var c := Owe(b.slots, e.live, e.tick, e.ask, e.clientSeq, e.walSeq);
    if e.ask.flags.replicated && e.live then b.(slots := c, copies := b.copies + [d])
    else b.(slots := c, here := b.here + [d])
  }

  /** A pass answers what waits for the flush, and strikes out the rest if it answers that. */
  function Passed(b: Book, e: Event): Book
    requires e.Pass?
  {
    var r := EmitRepl(b.slots, e.best, e.live, e.durable, e.tick);
    Book(Emitted(b.slots, e.best, e.live, e.durable, e.tick).0, [], if r.Some? then [] else b.copies)
  }

  function Step(b: Book, e: Event): Book {
    if e.Owes? then Entered(b, e) else Passed(b, e)
  }

  function Run(es: seq<Event>): Book {
    if es == [] then Book(Client(CLEAR, CLEAR), [], [])
    else Step(Run(es[..|es| - 1]), es[|es| - 1])
  }

  // ---- what the slots hold of the account ----

  /** The least number that none of these is above, or 0. */
  ghost predicate Highest(x: nat, s: seq<nat>) {
    (forall i :: 0 <= i < |s| ==> s[i] <= x) && (x == 0 || x in s)
  }

  function ClientSeqs(ds: seq<Due>): (s: seq<nat>)
    ensures |s| == |ds| && forall i :: 0 <= i < |s| ==> s[i] == ds[i].clientSeq
  {
    seq(|ds|, i requires 0 <= i < |ds| => ds[i].clientSeq)
  }

  function WalSeqs(ds: seq<Due>): (s: seq<nat>)
    ensures |s| == |ds| && forall i :: 0 <= i < |s| ==> s[i] == ds[i].walSeq
  {
    seq(|ds|, i requires 0 <= i < |ds| => ds[i].walSeq)
  }


  /** Each flag is set if and only if one of the writes asked for it. */
  ghost predicate Asked(flags: Flags, ds: seq<Due>, degraded: bool) {
    && (flags.ackReq <==> exists i :: 0 <= i < |ds| && ds[i].ask.flags.ackReq)
    && (flags.sync <==> exists i :: 0 <= i < |ds| && ds[i].ask.flags.sync)
    && (flags.replicated <==> exists i :: 0 <= i < |ds| && ds[i].ask.flags.replicated)
    && flags.degraded == degraded
  }

  /** A slot stands for these writes: due if there are any, under the highest of their sequences. */
  ghost predicate StandsFor(a: Slot, ds: seq<Due>) {
    && (a.due <==> ds != []) && (ds == [] ==> a == CLEAR)
    && Highest(a.clientSeq, ClientSeqs(ds)) && Highest(a.walSeq, WalSeqs(ds))
  }

  ghost predicate Kept(b: Book) {
    && StandsFor(b.slots.local, b.here) && StandsFor(b.slots.repl, b.copies)
    && Asked(b.slots.local.flags, b.here, exists i :: 0 <= i < |b.here| && b.here[i].ask.flags.replicated)
    && Asked(b.slots.repl.flags, b.copies, false)
    && (b.slots.repl.degradable <==> exists i :: 0 <= i < |b.copies| && b.copies[i].ask.degradable)
    && (b.copies != [] ==> b.slots.repl.deadline == b.copies[0].tick + REPL_DEADLINE_TICKS)
  }

  lemma HighestPush(x: nat, s: seq<nat>, y: nat)
    requires Highest(x, s)
    ensures Highest(if y > x then y else x, s + [y])
  {
    var t := s + [y];
    assert t[|s|] == y;
    if x > 0 && y <= x {
      var i :| 0 <= i < |s| && s[i] == x;
      assert t[i] == x;
    }
  }

  lemma SeqsPush(ds: seq<Due>, d: Due)
    ensures ClientSeqs(ds + [d]) == ClientSeqs(ds) + [d.clientSeq] && WalSeqs(ds + [d]) == WalSeqs(ds) + [d.walSeq]
  {}

  /** One more write in the slot. */
  lemma StandsPush(a: Slot, ds: seq<Due>, d: Due, flags: Flags, degradable: bool, deadline: nat)
    requires StandsFor(a, ds)
    ensures var b := Staged(a, flags, degradable, d.clientSeq, d.walSeq, deadline);
      && StandsFor(b, ds + [d])
      && b.deadline == (if ds == [] then deadline else a.deadline)
  {
    SeqsPush(ds, d);
    HighestPush(a.clientSeq, ClientSeqs(ds), d.clientSeq);
    HighestPush(a.walSeq, WalSeqs(ds), d.walSeq);
    hide Highest;
  }

  /** A write that waits for the flush. */
  lemma HereKept(b: Book, e: Event)
    requires Kept(b) && e.Owes? && !(e.ask.flags.replicated && e.live)
    ensures Kept(Entered(b, e))
  {
    hide StandsFor;
    var d, t := Due(e.ask, e.clientSeq, e.walSeq, e.tick), Entered(b, e);
    var asked := e.ask.flags.(degraded := e.ask.flags.replicated);
    StandsPush(b.slots.local, b.here, d, asked, asked.replicated, 0);
    FlagsPush(b.slots.local.flags, b.here, d, asked, b.slots.local.flags.degraded);
    hide Union, Asked;
    assert (exists i :: 0 <= i < |t.here| && t.here[i].ask.flags.replicated)
      <==> b.slots.local.flags.degraded || e.ask.flags.replicated by { LastOne(b, d); }
  }

  lemma LastOne(b: Book, d: Due)
    requires Kept(b)
    ensures var t := b.here + [d];
      (exists i :: 0 <= i < |t| && t[i].ask.flags.replicated)
      <==> b.slots.local.flags.degraded || d.ask.flags.replicated
  {
    hide StandsFor;
    var t := b.here + [d];
    assert t[|b.here|] == d && forall i :: 0 <= i < |b.here| ==> t[i] == b.here[i];
  }

  lemma FlagsPush(flags: Flags, ds: seq<Due>, d: Due, asked: Flags, degraded: bool)
    requires Asked(flags, ds, degraded) && asked == d.ask.flags.(degraded := asked.degraded)
    ensures Asked(Union(flags, asked), ds + [d], degraded || asked.degraded)
  {
    var t := ds + [d];
    assert t[|ds|] == d && forall i :: 0 <= i < |ds| ==> t[i] == ds[i];
  }

  /** A write that waits for a replica. */
  lemma CopyKept(b: Book, e: Event)
    requires Kept(b) && e.Owes? && e.ask.flags.replicated && e.live
    ensures Kept(Entered(b, e))
  {
    hide StandsFor;
    var d, ds := Due(e.ask, e.clientSeq, e.walSeq, e.tick), b.copies;
    var asked := e.ask.flags.(degraded := false);
    StandsPush(b.slots.repl, ds, d, asked, e.ask.degradable, e.tick + REPL_DEADLINE_TICKS);
    FlagsPush(b.slots.repl.flags, ds, d, asked, false);
    hide Union, Asked;
    var t := ds + [d];
    assert t[|ds|] == d && forall i :: 0 <= i < |ds| ==> t[i] == ds[i];
  }

  lemma PassKept(b: Book, e: Event)
    requires Kept(b) && e.Pass?
    ensures Kept(Passed(b, e))
  {
    NothingDue();
  }

  lemma NothingDue()
    ensures StandsFor(CLEAR, []) && Asked(CLEAR.flags, [], false)
  {}

  lemma {:induction false} RunKept(es: seq<Event>)
    ensures Kept(Run(es))
  {
    hide Kept, Entered, Passed;
    if es == [] {
      StartKept(Run(es));
    } else {
      RunKept(es[..|es| - 1]);
      var b, e := Run(es[..|es| - 1]), es[|es| - 1];
      if e.Pass? {
        PassKept(b, e);
      } else if e.ask.flags.replicated && e.live {
        CopyKept(b, e);
      } else {
        HereKept(b, e);
      }
    }
  }

  lemma StartKept(b: Book)
    requires b == Book(Client(CLEAR, CLEAR), [], [])
    ensures Kept(b)
  {
    NothingDue();
  }

  // ---- the answers ----

  /** Every one of these is flushed here and confirmed by a replica. */
  ghost predicate Confirmed(ds: seq<Due>, best: nat, durable: nat) {
    forall i :: 0 <= i < |ds| ==> ds[i].walSeq <= best && ds[i].walSeq <= durable
  }

  /** The first to wait has waited long enough, or there is nobody to wait for. */
  predicate GivenUp(ds: seq<Due>, live: bool, tick: nat)
    requires ds != []
  {
    !live || tick >= ds[0].tick + REPL_DEADLINE_TICKS
  }

  /** What an answer about these writes names, and the flags it carries. */
  ghost predicate Names(r: Reply, ds: seq<Due>, degraded: bool) {
    && r.Ack? && Highest(r.clientSeq, ClientSeqs(ds)) && Highest(r.walSeq, WalSeqs(ds))
    && Asked(r.flags, ds, degraded)
  }

  /**
   What a pass says to a client after any run. What waited for the flush is
   acknowledged now, as degraded if and only if one of the writes wanted a second
   copy and there was nobody to give it. What waits for a replica is acknowledged
   if and only if every record of it is flushed and confirmed; it goes on waiting
   if and only if that is not so, somebody is attached and the first of it has
   not waited its time; and given up it is acknowledged as degraded if one of the
   writes allowed that, and refused if none did. Every answer names the highest
   of the sequences it stands for, and the flags asked for.
   */
  lemma AnsweredAsOwed(es: seq<Event>, best: nat, live: bool, durable: nat, tick: nat)
    ensures var b := Run(es);
      var (after, out) := Emitted(b.slots, best, live, durable, tick);
      var here, ds := EmitLocal(b.slots), b.copies;
      && here <= out && after.local == CLEAR
      && (b.here == [] ==> here == [])
      && (b.here != [] ==>
            var degraded := exists i :: 0 <= i < |b.here| && b.here[i].ask.flags.replicated;
            |here| == 1 && Names(here[0], b.here, degraded))
      && (ds == [] ==> out == here && after.repl == CLEAR)
      && (ds != [] && Confirmed(ds, best, durable) ==>
            after.repl == CLEAR && |out| == |here| + 1 && Names(out[|here|], ds, false))
      && (ds != [] && !Confirmed(ds, best, durable) && !GivenUp(ds, live, tick) ==>
            out == here && after.repl == b.slots.repl)
      && (ds != [] && !Confirmed(ds, best, durable) && GivenUp(ds, live, tick) ==>
            && after.repl == CLEAR && |out| == |here| + 1
            && if exists i :: 0 <= i < |ds| && ds[i].ask.degradable then Names(out[|here|], ds, true)
               else out[|here|].NoReplicas? && Highest(out[|here|].clientSeq, ClientSeqs(ds)))
  {
    RunKept(es);
    hide Run;
    var b := Run(es);
    if b.copies != [] { AllConfirmed(b.slots.repl, b.copies, best, durable); }
    hide Highest;
  }

  /** The slot's sequence stands for those of all. */
  lemma AllConfirmed(a: Slot, ds: seq<Due>, best: nat, durable: nat)
    requires StandsFor(a, ds)
    ensures Confirmed(ds, best, durable) <==> a.walSeq <= best && a.walSeq <= durable
  {
    var s := WalSeqs(ds);
    if Confirmed(ds, best, durable) && a.walSeq > 0 {
      var i :| 0 <= i < |s| && s[i] == a.walSeq;
      assert ds[i].walSeq == a.walSeq;
    } else {
      assert forall i :: 0 <= i < |ds| ==> ds[i].walSeq == s[i];
    }
  }
}
