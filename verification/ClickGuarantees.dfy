/**
 Delivery in terms of the steps of a run: what the faults of each step drop and what each
 step pushes back although it is stored decide how often an event ends up in the table.
 At-least-once, at-most-once and exactly-once delivery each hold exactly when no step does
 the one or the other.
 */
module ClickGuarantees {
  import opened Environment
  import opened ClickEvents
  import opened ClickMachine
  import opened ClickLedger
  import opened ClickDelivery

  /** The well-formed, unstored events that the fault of an action drops. */
  function DropOf(cfg: Config, s: State, a: Action): seq<Raw> {
    if a.Advance? && a.p < |s.procs| && CauseOf(s.procs[a.p], a.reply).Some?
    then ValidOf(cfg.checks, AtStake(cfg, s.stores, s.procs[a.p], a.reply)) else []
  }

  /** An RPUSH of the re-queue loop that arrives, for an event already stored. */
  function CopyOf(cfg: Config, ph: Phase, reply: Reply): seq<Raw> {
    if ph.Requeueing? && ph.rest != [] && (reply.Done? || reply.applied)
       && IsStored(cfg.checks, ph.who, ph.rest[0], ph.stored)
    then [ph.rest[0]] else []
  }

  /** The event that an action pushes back although the table has it. */
  function CopyBy(cfg: Config, s: State, a: Action): seq<Raw> {
    if a.Advance? && a.p < |s.procs| then CopyOf(cfg, s.procs[a.p], a.reply) else []
  }

  /** All that the steps of a run drop, and all they push back although stored. */
  function Dropped(cfg: Config, s0: State, acts: seq<Action>): seq<Raw> {
    if acts == [] then []
    else
      var n := |acts| - 1;
      Dropped(cfg, s0, acts[..n]) + DropOf(cfg, Run(cfg, s0, acts[..n]), acts[n])
  }

  function Copied(cfg: Config, s0: State, acts: seq<Action>): seq<Raw> {
    if acts == [] then []
    else
      var n := |acts| - 1;
      Copied(cfg, s0, acts[..n]) + CopyBy(cfg, Run(cfg, s0, acts[..n]), acts[n])
  }

  lemma NextDrops(cfg: Config, s: State, a: Action)
    ensures Next(cfg, s, a).stores.books.lost == s.stores.books.lost + DropOf(cfg, s, a)
  {
    hide Step, AtStake, ValidOf, CauseOf, Spawned;
    if a.Advance? && a.p < |s.procs| {
      StepLoss(cfg, s.stores, s.procs[a.p], a.reply);
    }
  }

  lemma {:induction false} LostIsDropped(cfg: Config, s0: State, acts: seq<Action>)
    ensures Run(cfg, s0, acts).stores.books.lost == s0.stores.books.lost + Dropped(cfg, s0, acts)
  {
    hide Next, DropOf;
    if acts != [] {
      var n := |acts| - 1;
      LostIsDropped(cfg, s0, acts[..n]);
      NextDrops(cfg, Run(cfg, s0, acts[..n]), acts[n]);
    }
  }

  lemma StepCopies(cfg: Config, s: Stores, ph: Phase, reply: Reply)
    ensures Step(cfg, s, ph, reply).stores.books.copies == s.books.copies + CopyOf(cfg, ph, reply)
  {
    hide ValidOf, InvalidOf, WellFormed, AllBindable, Payload, IsStored, Unstored;
  }

  lemma NextCopies(cfg: Config, s: State, a: Action)
    ensures Next(cfg, s, a).stores.books.copies == s.stores.books.copies + CopyBy(cfg, s, a)
  {
    hide Step, CopyOf, Spawned;
    if a.Advance? && a.p < |s.procs| {
      StepCopies(cfg, s.stores, s.procs[a.p], a.reply);
    }
  }

  lemma {:induction false} CopiesAreCopied(cfg: Config, s0: State, acts: seq<Action>)
    ensures Run(cfg, s0, acts).stores.books.copies == s0.stores.books.copies + Copied(cfg, s0, acts)
  {
    hide Next, CopyBy;
    if acts != [] {
      var n := |acts| - 1;
      CopiesAreCopied(cfg, s0, acts[..n]);
      NextCopies(cfg, Run(cfg, s0, acts[..n]), acts[n]);
    }
  }

  /******* What ends up in the table *******/

  /** The list is empty and no process holds an event. */
  predicate AtRest(cfg: Config, s: State) {
    s.stores.buffer == [] && forall p :: 0 <= p < |s.procs| ==> Held(cfg, s.procs[p]) == []
  }

  lemma {:induction false} EmptyHands(cfg: Config, procs: seq<Phase>, r: Raw)
    requires forall p :: 0 <= p < |procs| ==> Held(cfg, procs[p]) == []
    ensures InHands(cfg, procs, r) == 0
  {
    hide Held;
    if procs != [] {
      EmptyHands(cfg, procs[..|procs| - 1], r);
    }
  }

  ghost predicate Accounted(cfg: Config, s0: State, acts: seq<Action>, r: Raw) {
    var s := Run(cfg, s0, acts).stores;
    Count(s.table, r) + Count(Dropped(cfg, s0, acts), r) == Count(s.books.pushed, r) + Count(Copied(cfg, s0, acts), r)
  }

  /** Once a run is at rest, a well-formed event is in the table as often as it was pushed,
      plus once for each step that pushed it back although stored, less once for each step
      whose fault dropped it. */
  lemma StoredCount(cfg: Config, day: string, acts: seq<Action>, r: Raw)
    requires AtRest(cfg, Run(cfg, Init(cfg, day), acts)) && WellFormed(cfg.checks, r)
    ensures Accounted(cfg, Init(cfg, day), acts, r)
  {
    hide Run, Count, WellFormed, Dropped, Copied;
    var s0, s := Init(cfg, day), Run(cfg, Init(cfg, day), acts);
    Conservation(cfg, day, acts, r);
    EmptyHands(cfg, s.procs, r);
    RunSorted(cfg, day, acts);
    CountAbsent(s.stores.books.discarded, r);
    CountNone(r);
    LostIsDropped(cfg, s0, acts);
    CopiesAreCopied(cfg, s0, acts);
    assert [] + Dropped(cfg, s0, acts) == Dropped(cfg, s0, acts);
    assert [] + Copied(cfg, s0, acts) == Copied(cfg, s0, acts);
  }

  ghost predicate DeliversAtLeastOnce(cfg: Config, s: Stores) {
    forall r :: WellFormed(cfg.checks, r) ==> Count(s.table, r) >= Count(s.books.pushed, r)
  }

  ghost predicate DeliversAtMostOnce(cfg: Config, s: Stores) {
    forall r :: WellFormed(cfg.checks, r) ==> Count(s.table, r) <= Count(s.books.pushed, r)
  }

  ghost predicate NoneLoses(cfg: Config, day: string, acts: seq<Action>) {
    forall k :: 0 <= k < |acts| ==> !LosesAt(cfg, Init(cfg, day), acts, k)
  }

  ghost predicate NoneDoubles(cfg: Config, day: string, acts: seq<Action>) {
    forall k :: 0 <= k < |acts| ==> !DoublesAt(cfg, Init(cfg, day), acts, k)
  }

  /** Every drop of an event is made up for by a push of a stored copy, or vice versa. */
  ghost predicate DropsCovered(cfg: Config, s0: State, acts: seq<Action>) {
    forall r :: WellFormed(cfg.checks, r) ==> Count(Dropped(cfg, s0, acts), r) <= Count(Copied(cfg, s0, acts), r)
  }

  ghost predicate CopiesCovered(cfg: Config, s0: State, acts: seq<Action>) {
    forall r :: WellFormed(cfg.checks, r) ==> Count(Copied(cfg, s0, acts), r) <= Count(Dropped(cfg, s0, acts), r)
  }

  /** Every run, whatever doubles in it: delivery is at least once exactly when no event is
      dropped by more steps than push it back although stored, at most once exactly when none
      is pushed back by more steps than drop it. */
  lemma DeliveredExactly(cfg: Config, day: string, acts: seq<Action>)
    requires AtRest(cfg, Run(cfg, Init(cfg, day), acts))
    ensures DeliversAtLeastOnce(cfg, Run(cfg, Init(cfg, day), acts).stores) <==> DropsCovered(cfg, Init(cfg, day), acts)
    ensures DeliversAtMostOnce(cfg, Run(cfg, Init(cfg, day), acts).stores) <==> CopiesCovered(cfg, Init(cfg, day), acts)
  {
    hide Run, Count, WellFormed, Dropped, Copied, AtRest;
    forall r | WellFormed(cfg.checks, r)
      ensures Accounted(cfg, Init(cfg, day), acts, r)
    {
      StoredCount(cfg, day, acts, r);
    }
  }

  lemma {:induction false} SomeCount(s: seq<Raw>, i: nat)
    requires i < |s|
    ensures Count(s, s[i]) > 0
  {
    if i < |s| - 1 {
      SomeCount(s[..|s| - 1], i);
    }
  }

  /** What is lost is well-formed, so a run that loses anything loses some such event. */
  lemma LossIsSeen(cfg: Config, day: string, acts: seq<Action>)
    ensures NoneLoses(cfg, day, acts)
       <==> forall r :: WellFormed(cfg.checks, r) ==> Count(Run(cfg, Init(cfg, day), acts).stores.books.lost, r) == 0
  {
    hide Run, WellFormed, LosesAt, Count;
    var lost := Run(cfg, Init(cfg, day), acts).stores.books.lost;
    LosesNothingExactly(cfg, Init(cfg, day), acts);
    RunSorted(cfg, day, acts);
    forall r
      ensures lost == [] ==> Count(lost, r) == 0
    {
      CountNone(r);
    }
    if lost != [] {
      SomeCount(lost, 0);
      assert WellFormed(cfg.checks, lost[0]);
    }
  }

  /** If no fault of the run drops a well-formed, unstored event, delivery is at least once,
      whatever was stored twice. */
  lemma NothingDroppedDelivers(cfg: Config, day: string, acts: seq<Action>)
    requires AtRest(cfg, Run(cfg, Init(cfg, day), acts)) && NoneLoses(cfg, day, acts)
    ensures DeliversAtLeastOnce(cfg, Run(cfg, Init(cfg, day), acts).stores)
  {
    hide Run, Count, WellFormed, AtRest, LosesAt, Held;
    var s := Run(cfg, Init(cfg, day), acts);
    LossIsSeen(cfg, day, acts);
    forall r | WellFormed(cfg.checks, r)
      ensures Count(s.stores.table, r) >= Count(s.stores.books.pushed, r)
    {
      RestIsQuiet(cfg, s, r);
      DeliveredExactlyWhenNotLost(cfg, day, acts, r);
    }
  }

  lemma RestIsQuiet(cfg: Config, s: State, r: Raw)
    requires AtRest(cfg, s)
    ensures Quiet(cfg, s, r)
  {
    hide Held;
    EmptyHands(cfg, s.procs, r);
  }

  /** Unless a statement took effect behind an error, delivery is at least once exactly when
      no fault drops a well-formed, unstored event; and it is at most once, so then exactly once. */
  lemma AtLeastOnceExactly(cfg: Config, day: string, acts: seq<Action>)
    requires AtRest(cfg, Run(cfg, Init(cfg, day), acts)) && NoneDoubles(cfg, day, acts)
    ensures DeliversAtLeastOnce(cfg, Run(cfg, Init(cfg, day), acts).stores) <==> NoneLoses(cfg, day, acts)
    ensures DeliversAtMostOnce(cfg, Run(cfg, Init(cfg, day), acts).stores)
  {
    hide Run, Count, WellFormed, AtRest, LosesAt, DoublesAt, Held, NoneLoses;
    var s := Run(cfg, Init(cfg, day), acts);
    LossIsSeen(cfg, day, acts);
    NoDoublingNoCopies(cfg, day, acts);
    forall r | WellFormed(cfg.checks, r)
      ensures Count(s.stores.table, r) >= Count(s.stores.books.pushed, r) <==> Count(s.stores.books.lost, r) == 0
      ensures Count(s.stores.table, r) <= Count(s.stores.books.pushed, r)
    {
      RestIsQuiet(cfg, s, r);
      DeliveredExactlyWhenNotLost(cfg, day, acts, r);
      AtMostOnce(cfg, day, acts, r);
      CountNone(r);
    }
  }

  /******* Where doubling leads *******/

  /** A doubling reply to COMMIT leaves the batch's well-formed events in the table and leads to
      the re-queue loop exactly when ROLLBACK succeeds; one to the on-demand INSERT leaves the
      whole batch in the table and always leads there. */
  lemma DoublingRequeues(cfg: Config, s: Stores, ph: Phase, reply: Reply, rollback: Reply)
    requires Doubles(ph, reply)
    ensures ph.Committing? ==> HiddenCommitOutcome(cfg, s, ph.batch, reply, rollback)
    ensures ph.Inserting? ==>
              Step(cfg, s, ph, reply) == Move(s.(table := s.table + ph.batch), Requeueing(Service, ph.batch, true))
  {
    hide AllBindable, ValidOf, InvalidOf, WellFormed;
    NoValid(cfg.checks);
  }

  ghost predicate HiddenCommitOutcome(cfg: Config, s: Stores, batch: seq<Raw>, reply: Reply, rollback: Reply) {
    var commit := Step(cfg, s, Committing(batch), reply);
    var after := Step(cfg, commit.stores, commit.phase, rollback);
    && commit.stores.table == s.table + ValidOf(cfg.checks, batch) && after.stores.table == commit.stores.table
    && after.phase == if rollback.Done? then Requeueing(Worker, batch, true) else Idle
  }

  /** The stores after the re-queue loop has pushed a whole batch back. */
  function PushedBack(cfg: Config, s: Stores, who: Consumer, rest: seq<Raw>, stored: bool): Stores
    decreases |rest|
  {
    if rest == [] then s
    else PushedBack(cfg, Step(cfg, s, Requeueing(who, rest, stored), Done).stores, who, rest[1..], stored)
  }

  /** The stored events of a batch marked as stored: for the worker the well-formed ones, for
      the on-demand consumer all. */
  function StoredPart(checks: Checks, who: Consumer, batch: seq<Raw>): seq<Raw> {
    if who.Worker? then ValidOf(checks, batch) else batch
  }

  function IfStored(checks: Checks, who: Consumer, raw: Raw): seq<Raw> {
    if IsStored(checks, who, raw, true) then [raw] else []
  }

  lemma OnePushedBack(cfg: Config, s: Stores, who: Consumer, rest: seq<Raw>)
    requires rest != []
    ensures var t := Step(cfg, s, Requeueing(who, rest, true), Done).stores;
            && t.buffer == s.buffer + [rest[0]]
            && t.books.copies == s.books.copies + IfStored(cfg.checks, who, rest[0])
  {
    hide WellFormed;
  }

  lemma StoredPartFirst(checks: Checks, who: Consumer, rest: seq<Raw>)
    requires rest != []
    ensures StoredPart(checks, who, rest) == IfStored(checks, who, rest[0]) + StoredPart(checks, who, rest[1..])
  {
    hide WellFormed, ValidOf, InvalidOf;
    ValidOfConcat(checks, [rest[0]], rest[1..]);
    SingleValid(checks, rest[0]);
    assert rest == [rest[0]] + rest[1..];
  }

  lemma Assoc(a: seq<Raw>, b: seq<Raw>, c: seq<Raw>)
    ensures a + b + c == a + (b + c)
  {
  }

  /** A loop over a batch marked as stored copies each of its stored events. */
  lemma {:induction false} LoopCopies(cfg: Config, s: Stores, who: Consumer, rest: seq<Raw>)
    ensures PushedBack(cfg, s, who, rest, true).buffer == s.buffer + rest
    ensures PushedBack(cfg, s, who, rest, true).books.copies == s.books.copies + StoredPart(cfg.checks, who, rest)
    decreases |rest|
  {
    if rest == [] {
      NoValid(cfg.checks);
      assert s.books.copies + [] == s.books.copies && s.buffer + [] == s.buffer;
    } else {
      hide StoredPart, IfStored, Step;
      OnePushedBack(cfg, s, who, rest);
      LoopCopies(cfg, Step(cfg, s, Requeueing(who, rest, true), Done).stores, who, rest[1..]);
      StoredPartFirst(cfg.checks, who, rest);
      Assoc(s.books.copies, IfStored(cfg.checks, who, rest[0]), StoredPart(cfg.checks, who, rest[1..]));
      assert rest == [rest[0]] + rest[1..];
      Assoc(s.buffer, [rest[0]], rest[1..]);
    }
  }

  /******* A run that stores a click twice *******/

  /** One undisturbed cycle of worker 0 up to its COMMIT. */
  function ToCommit(): seq<Action> {
    [Tick(0), Advance(0, Done), Advance(0, Done), Advance(0, Done), Advance(0, Done), Advance(0, Done)]
  }

  /** COMMIT takes effect but reports a connection failure; ROLLBACK and RPUSH succeed. */
  function HiddenCommit(): seq<Action> {
    [Advance(0, Fault(true, "08006")), Advance(0, Done), Advance(0, Done)]
  }

  /** One click, a cycle with a hidden COMMIT, and a second cycle without a fault. */
  function HiddenCommitRun(ip: string): seq<Action> {
    TrackPart(ip) + ToCommit() + HiddenCommit() + ToCommit() + [Advance(0, Done)]
  }

  lemma CycleReachesCommit(cfg: Config, s: State, r: Raw)
    requires cfg.batch == 1 && WellFormed(cfg.checks, r)
    requires s.procs == [Idle, Tracked] && s.stores.buffer == [r]
    ensures Run(cfg, s, ToCommit()) == State(s.stores.(buffer := []), [Committing([r]), Tracked])
  {
    SingleValid(cfg.checks, r);
    hide WellFormed, ValidOf, InvalidOf, Run;
    var s1 := Next(cfg, s, Tick(0));
    var s2 := Next(cfg, s1, Advance(0, Done));
    assert [] + [r] == [r];
    assert s2 == State(s.stores.(buffer := []), [Popping(0, [r]), Tracked]);
    var s3 := Next(cfg, s2, Advance(0, Done));
    var s4 := Next(cfg, s3, Advance(0, Done));
    var s5 := Next(cfg, s4, Advance(0, Done));
    var s6 := Next(cfg, s5, Advance(0, Done));
    assert s6 == State(s.stores.(buffer := []), [Committing([r]), Tracked]);
    SixSteps(cfg, s, ToCommit());
  }

  function StoredAndBack(s: Stores, r: Raw): Stores {
    s.(buffer := [r], table := s.table + [r], books := s.books.(copies := s.books.copies + [r]))
  }

  lemma HiddenCommitRequeues(cfg: Config, s: State, r: Raw)
    requires WellFormed(cfg.checks, r) && s.procs == [Committing([r]), Tracked] && s.stores.buffer == []
    ensures Run(cfg, s, HiddenCommit()) == State(StoredAndBack(s.stores, r), [Idle, Tracked])
  {
    SingleValid(cfg.checks, r);
    hide WellFormed, ValidOf, InvalidOf, Run;
    var acts := HiddenCommit();
    var s1 := Next(cfg, s, acts[0]);
    var s2 := Next(cfg, s1, acts[1]);
    var s3 := Next(cfg, s2, acts[2]);
    assert [] + [r] == [r];
    assert s2.procs == [Requeueing(Worker, [r], true), Tracked];
    RunOne(cfg, s, acts[0]);
    RunSnoc(cfg, s, [acts[0]], acts[1]);
    RunSnoc(cfg, s, [acts[0]] + [acts[1]], acts[2]);
    assert acts == [acts[0]] + [acts[1]] + [acts[2]];
  }

  lemma CommitStores(cfg: Config, s: State, r: Raw)
    requires WellFormed(cfg.checks, r) && s.procs == [Committing([r]), Tracked]
    ensures Run(cfg, s, [Advance(0, Done)]) == State(s.stores.(table := s.stores.table + [r]), [Idle, Tracked])
  {
    SingleValid(cfg.checks, r);
    NoValid(cfg.checks);
    RunOne(cfg, s, Advance(0, Done));
    hide WellFormed, ValidOf, InvalidOf, Run;
    assert s.stores.books.lost + [] == s.stores.books.lost && s.stores.books.discarded + [] == s.stores.books.discarded;
  }

  /** A COMMIT that takes effect behind a transient error puts one click into the table twice. */
  lemma HiddenCommitStoresTwice(checks: Checks, ip: string)
    requires Sound(checks) && checks.isIP(ip)
    ensures var cfg, r := Config(checks, 1, 1), Payload(Captured("7", "2026-04-01", ip, "", ""));
            var s := Run(cfg, Init(cfg, "2026-04-01"), HiddenCommitRun(ip));
            && WellFormed(checks, r) && AtRest(cfg, s)
            && s.stores.books.pushed == [r] && s.stores.table == [r, r] && s.stores.books.copies == [r]
  {
    var cfg, e := Config(checks, 1, 1), Captured("7", "2026-04-01", ip, "", "");
    var r, s0 := Payload(e), Init(cfg, "2026-04-01");
    PayloadWellFormed(checks, e);
    hide Payload, Captured, WellFormed, Sound, ValidOf, InvalidOf, Run, Init, Next;
    hide ConnectFailureRun, ToCommit, HiddenCommit;
    var tracked := TrackPart(ip);
    ClickTracked(cfg, ip, tracked, e);
    var s1 := Run(cfg, s0, tracked);
    CycleReachesCommit(cfg, s1, r);
    HiddenCommitRequeues(cfg, Run(cfg, s1, ToCommit()), r);
    var s2 := Run(cfg, Run(cfg, s1, ToCommit()), HiddenCommit());
    CycleReachesCommit(cfg, s2, r);
    CommitStores(cfg, Run(cfg, s2, ToCommit()), r);
    RunConcat(cfg, s0, tracked, ToCommit());
    RunConcat(cfg, s0, tracked + ToCommit(), HiddenCommit());
    RunConcat(cfg, s0, tracked + ToCommit() + HiddenCommit(), ToCommit());
    RunConcat(cfg, s0, tracked + ToCommit() + HiddenCommit() + ToCommit(), [Advance(0, Done)]);
    assert [r] + [r] == [r, r] && [] + [r] == [r];
  }

  function TrackPart(ip: string): seq<Action> {
    ConnectFailureRun(ip)[..5]
  }
}
