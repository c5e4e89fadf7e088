/**
 The conservation ledger of the click pipeline, over every run of `ClickMachine`: every
 event pushed is in the list, in some process's hands, in the table, discarded as
 malformed, or lost, and nothing else is.

 The bookkeeping is done one event `r` at a time, on the number of its occurrences.
 */
module ClickLedger {
  import opened Environment
  import opened ClickEvents
  import opened ClickMachine

  /** Occurrences of r in a list. */
  function Count(s: seq<Raw>, r: Raw): nat {
    if s == [] then 0 else Count(s[..|s| - 1], r) + if s[|s| - 1] == r then 1 else 0
  }

  lemma {:induction false} CountIsMultiplicity(s: seq<Raw>, r: Raw)
    ensures Count(s, r) == multiset(s)[r]
  {
    if s != [] {
      CountIsMultiplicity(s[..|s| - 1], r);
      assert s == s[..|s| - 1] + [s[|s| - 1]];
    }
  }

  /** The events a process holds that are not in the table yet. */
  function Held(cfg: Config, ph: Phase): seq<Raw> {
    match ph
    case Popping(_, got) => got
    case Draining(_, got) => got
    case Connecting(_, batch) => batch
    case Beginning(batch) => batch
    case Inserting(_, batch) => batch
    case Committing(batch) => batch
    case RollingBack(batch, _, stored) => Unstored(cfg.checks, Worker, batch, stored)
    case Requeueing(who, rest, stored) => Unstored(cfg.checks, who, rest, stored)
    case _ => []
  }

  function HeldCount(cfg: Config, r: Raw): Phase -> nat {
    ph => Count(Held(cfg, ph), r)
  }

  /** Copies of r in all processes' hands. */
  function InHands(cfg: Config, procs: seq<Phase>, r: Raw): nat {
    Total(procs, HeldCount(cfg, r))
  }

  /** Copies of r that entered the pipeline, and copies that reached a resting place. */
  function Entered(s: Stores, r: Raw): nat {
    Count(s.books.pushed, r) + Count(s.books.copies, r)
  }

  function Settled(s: Stores, r: Raw): nat {
    Count(s.buffer, r) + Count(s.table, r) + Count(s.books.discarded, r) + Count(s.books.lost, r)
  }

  ghost predicate Ledger(cfg: Config, s: State, r: Raw) {
    Entered(s.stores, r) == Settled(s.stores, r) + InHands(cfg, s.procs, r)
  }

  /** What a command takes up equals what it puts down. */
  ghost predicate Balanced(cfg: Config, s: Stores, ph: Phase, m: Move, r: Raw) {
    Entered(m.stores, r) + Settled(s, r) + Count(Held(cfg, ph), r)
      == Entered(s, r) + Settled(m.stores, r) + Count(Held(cfg, m.phase), r)
  }

  /******* Counting *******/

  lemma {:induction false} CountConcat(a: seq<Raw>, b: seq<Raw>, r: Raw)
    ensures Count(a + b, r) == Count(a, r) + Count(b, r)
  {
    if b == [] {
      assert a + b == a;
    } else {
      CountConcat(a, b[..|b| - 1], r);
      assert (a + b)[..|a + b| - 1] == a + b[..|b| - 1];
    }
  }

  lemma CountNone(r: Raw)
    ensures Count([], r) == 0
  {
  }

  lemma CountFirst(s: seq<Raw>, r: Raw)
    requires s != []
    ensures Count(s, r) == Count([s[0]], r) + Count(s[1..], r)
  {
    CountConcat([s[0]], s[1..], r);
    assert s == [s[0]] + s[1..];
  }

  lemma {:induction false} CountPartition(checks: Checks, batch: seq<Raw>, r: Raw)
    ensures Count(ValidOf(checks, batch), r) + Count(InvalidOf(checks, batch), r) == Count(batch, r)
  {
    if batch != [] {
      var front, last := batch[..|batch| - 1], batch[|batch| - 1];
      CountPartition(checks, front, r);
      CountConcat(ValidOf(checks, front), [last], r);
      CountConcat(InvalidOf(checks, front), [last], r);
      CountConcat(front, [last], r);
    }
  }

  lemma SingleValid(checks: Checks, raw: Raw)
    ensures ValidOf(checks, [raw]) == if WellFormed(checks, raw) then [raw] else []
    ensures InvalidOf(checks, [raw]) == if WellFormed(checks, raw) then [] else [raw]
  {
    assert [raw][..0] == [];
  }

  lemma {:induction false} InvalidOfInvalid(checks: Checks, batch: seq<Raw>)
    ensures InvalidOf(checks, InvalidOf(checks, batch)) == InvalidOf(checks, batch)
    ensures ValidOf(checks, InvalidOf(checks, batch)) == []
  {
    if batch != [] {
      var n := |batch| - 1;
      InvalidOfInvalid(checks, batch[..n]);
      if !WellFormed(checks, batch[n]) {
        ValidOfConcat(checks, InvalidOf(checks, batch[..n]), [batch[n]]);
        SingleValid(checks, batch[n]);
      }
    }
  }

  lemma AbandonSettles(cfg: Config, s: Stores, batch: seq<Raw>, r: Raw)
    ensures Settled(Abandon(cfg, s, batch), r) == Settled(s, r) + Count(batch, r)
    ensures Entered(Abandon(cfg, s, batch), r) == Entered(s, r)
  {
    CountPartition(cfg.checks, batch, r);
    CountConcat(s.books.lost, ValidOf(cfg.checks, batch), r);
    CountConcat(s.books.discarded, InvalidOf(cfg.checks, batch), r);
  }

  lemma StoreSettles(s: Stores, rows: seq<Raw>, r: Raw)
    ensures Settled(Store(s, rows), r) == Settled(s, r) + Count(rows, r)
    ensures Entered(Store(s, rows), r) == Entered(s, r)
  {
    CountConcat(s.table, rows, r);
  }

  lemma UnstoredFirst(checks: Checks, who: Consumer, rest: seq<Raw>, stored: bool, r: Raw)
    requires rest != []
    ensures Count(Unstored(checks, who, rest, stored), r)
         == Count(Unstored(checks, who, rest[1..], stored), r)
            + if IsStored(checks, who, rest[0], stored) then 0 else Count([rest[0]], r)
  {
    CountFirst(rest, r);
    assert rest == [rest[0]] + rest[1..];
    ValidOfConcat(checks, [rest[0]], rest[1..]);
    SingleValid(checks, rest[0]);
    CountConcat(InvalidOf(checks, [rest[0]]), InvalidOf(checks, rest[1..]), r);
  }

  lemma PushBackSettles(cfg: Config, s: Stores, who: Consumer, raw: Raw, stored: bool, r: Raw)
    ensures Settled(PushBack(cfg, s, who, raw, stored), r) == Settled(s, r) + Count([raw], r)
    ensures Entered(PushBack(cfg, s, who, raw, stored), r)
         == Entered(s, r) + if IsStored(cfg.checks, who, raw, stored) then Count([raw], r) else 0
  {
    CountConcat(s.buffer, [raw], r);
    CountConcat(s.books.copies, [raw], r);
  }

  lemma DepositSettles(s: Stores, raw: Raw, r: Raw)
    ensures Settled(Deposit(s, raw), r) == Settled(s, r) + Count([raw], r)
    ensures Entered(Deposit(s, raw), r) == Entered(s, r) + Count([raw], r)
  {
    CountConcat(s.buffer, [raw], r);
    CountConcat(s.books.pushed, [raw], r);
  }

  /******* Every command balances *******/

  lemma PopBalanced(cfg: Config, s: Stores, left: nat, got: seq<Raw>, reply: Reply, r: Raw)
    ensures Balanced(cfg, s, Popping(left, got), PopStep(cfg, s, left, got, reply), r)
  {
    hide Count;
    CountNone(r);
    AbandonSettles(cfg, s, got, r);
    if left > 0 && s.buffer != [] {
      var rest := s.(buffer := s.buffer[1..]);
      CountFirst(s.buffer, r);
      AbandonSettles(cfg, rest, [s.buffer[0]], r);
      CountConcat(got, [s.buffer[0]], r);
    }
  }

  lemma DrainFaultBalanced(cfg: Config, s: Stores, left: nat, got: seq<Raw>, reply: Reply, r: Raw)
    requires reply.Fault?
    ensures Balanced(cfg, s, Draining(left, got), DrainStep(cfg, s, left, got, reply), r)
  {
    hide Count;
    CountNone(r);
    AbandonSettles(cfg, s, got, r);
    if s.buffer != [] {
      CountFirst(s.buffer, r);
      AbandonSettles(cfg, s.(buffer := s.buffer[1..]), got + [s.buffer[0]], r);
      CountConcat(got, [s.buffer[0]], r);
    }
  }

  lemma DrainDoneBalanced(cfg: Config, s: Stores, left: nat, got: seq<Raw>, r: Raw)
    ensures Balanced(cfg, s, Draining(left, got), DrainStep(cfg, s, left, got, Done), r)
  {
    hide Count;
    CountNone(r);
    if s.buffer != [] {
      CountFirst(s.buffer, r);
      AbandonSettles(cfg, s.(buffer := s.buffer[1..]), [s.buffer[0]], r);
      CountConcat(got, [s.buffer[0]], r);
    }
  }

  lemma ConnectBalanced(cfg: Config, s: Stores, who: Consumer, batch: seq<Raw>, reply: Reply, r: Raw)
    ensures Balanced(cfg, s, Connecting(who, batch), ConnectStep(cfg, s, who, batch, reply), r)
  {
    hide Count;
    CountNone(r);
    AbandonSettles(cfg, s, batch, r);
  }

  lemma InsertBalanced(cfg: Config, s: Stores, who: Consumer, batch: seq<Raw>, reply: Reply, r: Raw)
    ensures Balanced(cfg, s, Inserting(who, batch), InsertStep(s, who, batch, reply), r)
  {
    hide Count;
    CountNone(r);
    StoreSettles(s, batch, r);
  }

  lemma RollbackBalanced(cfg: Config, s: Stores, batch: seq<Raw>, code: string, stored: bool, reply: Reply, r: Raw)
    ensures Balanced(cfg, s, RollingBack(batch, code, stored),
                     RollbackStep(cfg, s, batch, code, stored, reply), r)
  {
    hide Count;
    CountNone(r);
    AbandonSettles(cfg, s, Unstored(cfg.checks, Worker, batch, stored), r);
  }

  lemma CommitBalanced(cfg: Config, s: Stores, batch: seq<Raw>, reply: Reply, r: Raw)
    ensures Balanced(cfg, s, Committing(batch), CommitStep(cfg, s, batch, reply), r)
  {
    hide Count;
    CountNone(r);
    var valid, invalid := ValidOf(cfg.checks, batch), InvalidOf(cfg.checks, batch);
    CountPartition(cfg.checks, batch, r);
    StoreSettles(s, valid, r);
    AbandonSettles(cfg, Store(s, valid), invalid, r);
  }

  lemma UnstoredNone(checks: Checks, who: Consumer, stored: bool)
    ensures Unstored(checks, who, [], stored) == []
  {
  }

  lemma RequeueBalanced(cfg: Config, s: Stores, who: Consumer, rest: seq<Raw>, stored: bool, reply: Reply, r: Raw)
    ensures Balanced(cfg, s, Requeueing(who, rest, stored), RequeueStep(cfg, s, who, rest, stored, reply), r)
  {
    hide Count, Unstored, IsStored;
    CountNone(r);
    UnstoredNone(cfg.checks, who, stored);
    AbandonSettles(cfg, s, Unstored(cfg.checks, who, rest, stored), r);
    if rest != [] {
      UnstoredFirst(cfg.checks, who, rest, stored, r);
      PushBackSettles(cfg, s, who, rest[0], stored, r);
      AbandonSettles(cfg, PushBack(cfg, s, who, rest[0], stored), Unstored(cfg.checks, who, rest[1..], stored), r);
    }
  }

  lemma PushBalanced(cfg: Config, s: Stores, e: Event, reply: Reply, r: Raw)
    ensures Balanced(cfg, s, Pushing(e), PushStep(s, e, reply), r)
  {
    hide Count;
    CountNone(r);
    CountConcat(s.buffer, [Payload(e)], r);
    CountConcat(s.books.pushed, [Payload(e)], r);
  }

  /** The commands that move no event. */
  predicate Still(ph: Phase) {
    ph.Checking? || ph.Counting? || ph.Visiting? || ph.Beginning? || ph.Tracked? || ph.Idle? || ph.Consumed?
  }

  lemma StillBalanced(cfg: Config, s: Stores, ph: Phase, reply: Reply, r: Raw)
    requires Still(ph)
    ensures Balanced(cfg, s, ph, Step(cfg, s, ph, reply), r)
  {
    hide Count;
    CountNone(r);
  }

  lemma StepBalanced(cfg: Config, s: Stores, ph: Phase, reply: Reply, r: Raw)
    ensures Balanced(cfg, s, ph, Step(cfg, s, ph, reply), r)
  {
    if Still(ph) {
      StillBalanced(cfg, s, ph, reply, r);
    } else {
      hide Balanced, PushStep, PopStep, DrainStep, ConnectStep, InsertStep, CommitStep, RollbackStep, RequeueStep;
      match ph
      case Pushing(e) => PushBalanced(cfg, s, e, reply, r);
      case Popping(left, got) => PopBalanced(cfg, s, left, got, reply, r);
      case Draining(left, got) =>
        if reply.Done? {
          DrainDoneBalanced(cfg, s, left, got, r);
        } else {
          DrainFaultBalanced(cfg, s, left, got, reply, r);
        }
      case Connecting(who, batch) => ConnectBalanced(cfg, s, who, batch, reply, r);
      case Inserting(who, batch) => InsertBalanced(cfg, s, who, batch, reply, r);
      case Committing(batch) => CommitBalanced(cfg, s, batch, reply, r);
      case RollingBack(batch, code, stored) => RollbackBalanced(cfg, s, batch, code, stored, reply, r);
      case Requeueing(who, rest, stored) => RequeueBalanced(cfg, s, who, rest, stored, reply, r);
    }
  }

  lemma AdvanceKeepsLedger(cfg: Config, s: State, p: nat, reply: Reply, r: Raw)
    requires Ledger(cfg, s, r) && p < |s.procs|
    ensures Ledger(cfg, Next(cfg, s, Advance(p, reply)), r)
  {
    hide Count, Step, Entered, Settled, Held, Total;
    var m := Step(cfg, s.stores, s.procs[p], reply);
    StepBalanced(cfg, s.stores, s.procs[p], reply, r);
    TotalUpdate(s.procs, p, m.phase, HeldCount(cfg, r));
  }

  lemma NextKeepsLedger(cfg: Config, s: State, a: Action, r: Raw)
    requires Ledger(cfg, s, r)
    ensures Ledger(cfg, Next(cfg, s, a), r)
  {
    hide Count, Step, Entered, Settled, Held, Total;
    match a
    case Tick(p) =>
      if p < |s.procs| {
        TickTakesNothing(cfg, r);
        TotalUpdate(s.procs, p, Popping(cfg.batch, []), HeldCount(cfg, r));
      }
    case Advance(p, reply) =>
      if p < |s.procs| {
        AdvanceKeepsLedger(cfg, s, p, reply, r);
      }
    case Midnight(day) => SameBooks(s.stores, s.stores.(today := day), r);
    case Foreign(raw) => DepositSettles(s.stores, raw, r);
    case _ =>
      if Spawned(cfg, a).Some? {
        NewcomersHoldNothing(cfg, a, r);
        TotalAppend(s.procs, Spawned(cfg, a).value, HeldCount(cfg, r));
      }
  }

  lemma TickTakesNothing(cfg: Config, r: Raw)
    ensures HeldCount(cfg, r)(Idle) == HeldCount(cfg, r)(Popping(cfg.batch, [])) == 0
  {
  }

  lemma SameBooks(s: Stores, t: Stores, r: Raw)
    requires s.buffer == t.buffer && s.table == t.table && s.books == t.books
    ensures Entered(s, r) == Entered(t, r) && Settled(s, r) == Settled(t, r)
  {
  }

  lemma NewcomersHoldNothing(cfg: Config, a: Action, r: Raw)
    requires Spawned(cfg, a).Some?
    ensures HeldCount(cfg, r)(Spawned(cfg, a).value) == 0
  {
  }

  lemma {:induction false} TotalOfIdle(n: nat, weight: Phase -> nat)
    requires weight(Idle) == 0
    ensures Total(seq(n, i => Idle), weight) == 0
  {
    if n > 0 {
      TotalOfIdle(n - 1, weight);
      assert seq(n, i => Idle)[..n - 1] == seq(n - 1, i => Idle);
    }
  }

  /** The ledger balances after every run: any number of producers, workers and on-demand
      consumers, in any interleaving, under any faults. */
  lemma {:induction false} Conservation(cfg: Config, day: string, acts: seq<Action>, r: Raw)
    ensures Ledger(cfg, Run(cfg, Init(cfg, day), acts), r)
  {
    if acts == [] {
      TotalOfIdle(cfg.workers, HeldCount(cfg, r));
    } else {
      Conservation(cfg, day, acts[..|acts| - 1], r);
      NextKeepsLedger(cfg, Run(cfg, Init(cfg, day), acts[..|acts| - 1]), acts[|acts| - 1], r);
    }
  }

  /** Everything in the hands of any process. */
  function AllHeld(cfg: Config, procs: seq<Phase>): seq<Raw> {
    if procs == [] then [] else AllHeld(cfg, procs[..|procs| - 1]) + Held(cfg, procs[|procs| - 1])
  }

  lemma {:induction false} InHandsIsCount(cfg: Config, procs: seq<Phase>, r: Raw)
    ensures InHands(cfg, procs, r) == Count(AllHeld(cfg, procs), r)
  {
    if procs != [] {
      hide Held, Count;
      InHandsIsCount(cfg, procs[..|procs| - 1], r);
      CountConcat(AllHeld(cfg, procs[..|procs| - 1]), Held(cfg, procs[|procs| - 1]), r);
    } else {
      CountNone(r);
    }
  }

  /** The same as one equation between multisets of events. */
  lemma ConservationOfEvents(cfg: Config, day: string, acts: seq<Action>)
    ensures var s := Run(cfg, Init(cfg, day), acts);
            multiset(s.stores.books.pushed) + multiset(s.stores.books.copies)
            == multiset(s.stores.buffer) + multiset(AllHeld(cfg, s.procs)) + multiset(s.stores.table)
               + multiset(s.stores.books.discarded) + multiset(s.stores.books.lost)
  {
    hide Run, Init, Held, AllHeld;
    var s := Run(cfg, Init(cfg, day), acts);
    forall r: Raw
      ensures (multiset(s.stores.books.pushed) + multiset(s.stores.books.copies))[r]
           == (multiset(s.stores.buffer) + multiset(AllHeld(cfg, s.procs)) + multiset(s.stores.table)
               + multiset(s.stores.books.discarded) + multiset(s.stores.books.lost))[r]
    {
      hide Count;
      Conservation(cfg, day, acts, r);
      InHandsIsCount(cfg, s.procs, r);
      CountIsMultiplicity(s.stores.books.pushed, r);
      CountIsMultiplicity(s.stores.books.copies, r);
      CountIsMultiplicity(s.stores.buffer, r);
      CountIsMultiplicity(AllHeld(cfg, s.procs), r);
      CountIsMultiplicity(s.stores.table, r);
      CountIsMultiplicity(s.stores.books.discarded, r);
      CountIsMultiplicity(s.stores.books.lost, r);
    }
  }
}
