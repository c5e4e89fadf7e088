/**
 What the ledger of the click pipeline means for delivery, over every run of `ClickMachine`.

 Events are lost through seven causes and no other; an event is stored twice only after an
 SQL statement took effect although its reply was an error. `ClickGuarantees` draws the
 consequences for delivery.
 The README's at-least-once promise (README.md:131) does not hold of the code: a transient
 connection failure already loses a batch.
 */
module ClickDelivery {
  import opened Environment
  import opened ClickEvents
  import opened ClickMachine
  import opened ClickLedger

  datatype Cause =
    | PopReplyLost     // an LPOP of the pipeline took effect, its reply is an error
    | PipelineFailed   // the pipeline as a whole is rejected, or answers nothing
    | ConnectFailed    // no database client
    | RollbackFailed   // ROLLBACK throws inside the catch block
    | PersistentError  // an SQL error whose code is not on the transient list
    | RequeueFailed    // an RPUSH of the re-queue loop throws
    | DrainFailed      // an LPOP of the on-demand consumer throws

  /** The cause at work when a process in phase `ph` gets `reply`. */
  function CauseOf(ph: Phase, reply: Reply): Option<Cause> {
    match ph
    case Popping(left, _) =>
      if reply.Fault? && left == 0 then Some(PipelineFailed)
      else if reply.Fault? && reply.applied then Some(PopReplyLost) else None
    case Draining(_, _) => if reply.Fault? then Some(DrainFailed) else None
    case Connecting(_, _) => if reply.Fault? then Some(ConnectFailed) else None
    case RollingBack(_, code, _) =>
      if reply.Fault? then Some(RollbackFailed) else if !IsTransient(code) then Some(PersistentError) else None
    case Requeueing(_, _, _) => if reply.Fault? then Some(RequeueFailed) else None
    case _ => None
  }

  /** The unstored events such a fault drops: what the process holds, plus an event taken
      off the list whose reply went missing, minus one put back on it. */
  function AtStake(cfg: Config, s: Stores, ph: Phase, reply: Reply): seq<Raw> {
    var popped := if reply.Fault? && reply.applied && s.buffer != [] then [s.buffer[0]] else [];
    match ph
    case Popping(left, got) => if left == 0 then got else popped
    case Draining(_, got) => got + popped
    case Requeueing(who, rest, stored) =>
      if reply.Fault? && reply.applied && rest != [] then Unstored(cfg.checks, who, rest[1..], stored)
      else Unstored(cfg.checks, who, rest, stored)
    case _ => Held(cfg, ph)
  }

  lemma NoValid(checks: Checks)
    ensures ValidOf(checks, []) == [] && InvalidOf(checks, []) == []
  {
  }

  lemma QueueLoss(cfg: Config, s: Stores, ph: Phase, reply: Reply)
    requires ph.Popping? || ph.Draining? || ph.Requeueing?
    ensures Step(cfg, s, ph, reply).stores.books.lost
         == s.books.lost + if CauseOf(ph, reply).Some? then ValidOf(cfg.checks, AtStake(cfg, s, ph, reply)) else []
  {
    hide ValidOf, InvalidOf, WellFormed;
    NoValid(cfg.checks);
    if s.buffer != [] && s.buffer[0].Garbage? {
      SingleValid(cfg.checks, s.buffer[0]);
      assert !WellFormed(cfg.checks, s.buffer[0]) by {
        GarbageIsMalformed(cfg.checks, s.buffer[0]);
      }
    }
    if ph.Draining? {
      assert ph.got + [] == ph.got;
    }
  }

  lemma GarbageIsMalformed(checks: Checks, raw: Raw)
    requires raw.Garbage?
    ensures !WellFormed(checks, raw)
  {
  }

  lemma StepLoss(cfg: Config, s: Stores, ph: Phase, reply: Reply)
    ensures Step(cfg, s, ph, reply).stores.books.lost
         == s.books.lost + if CauseOf(ph, reply).Some? then ValidOf(cfg.checks, AtStake(cfg, s, ph, reply)) else []
  {
    hide ValidOf, InvalidOf, WellFormed;
    match ph
    case Popping(_, _) => QueueLoss(cfg, s, ph, reply);
    case Draining(_, _) => QueueLoss(cfg, s, ph, reply);
    case Requeueing(_, _, _) => QueueLoss(cfg, s, ph, reply);
    case Committing(batch) => InvalidOfInvalid(cfg.checks, batch);
    case _ =>
  }

  /** A reply loses events exactly when one of the causes strikes and a well-formed,
      unstored event is at stake. */
  lemma LossExactlyByCause(cfg: Config, s: Stores, ph: Phase, reply: Reply)
    ensures Step(cfg, s, ph, reply).stores.books.lost != s.books.lost
       <==> CauseOf(ph, reply).Some? && ValidOf(cfg.checks, AtStake(cfg, s, ph, reply)) != []
  {
    StepLoss(cfg, s, ph, reply);
  }

  /** The cause at work in step k of a run, if any. */
  function CauseAt(cfg: Config, s0: State, acts: seq<Action>, k: nat): Option<Cause>
    requires k < |acts|
  {
    var s := Run(cfg, s0, acts[..k]);
    if acts[k].Advance? && acts[k].p < |s.procs| then CauseOf(s.procs[acts[k].p], acts[k].reply) else None
  }

  lemma CauseAtPrefix(cfg: Config, s0: State, acts: seq<Action>, k: nat)
    requires k < |acts| - 1
    ensures CauseAt(cfg, s0, acts[..|acts| - 1], k) == CauseAt(cfg, s0, acts, k)
  {
    assert acts[..|acts| - 1][..k] == acts[..k];
  }

  lemma NextLoss(cfg: Config, s: State, a: Action)
    ensures s.stores.books.lost <= Next(cfg, s, a).stores.books.lost
    ensures Next(cfg, s, a).stores.books.lost != s.stores.books.lost ==>
              a.Advance? && a.p < |s.procs| && CauseOf(s.procs[a.p], a.reply).Some?
  {
    if a.Advance? && a.p < |s.procs| {
      StepLoss(cfg, s.stores, s.procs[a.p], a.reply);
    }
  }

  /** Step k loses a copy of r, and one of the causes strikes in it. */
  ghost predicate LostAt(cfg: Config, s0: State, acts: seq<Action>, k: nat, r: Raw)
    requires k < |acts|
  {
    && CauseAt(cfg, s0, acts, k).Some?
    && Count(Run(cfg, s0, acts[..k + 1]).stores.books.lost, r) > Count(Run(cfg, s0, acts[..k]).stores.books.lost, r)
  }

  lemma LostAtPrefix(cfg: Config, s0: State, acts: seq<Action>, k: nat, r: Raw)
    requires k < |acts| - 1 && LostAt(cfg, s0, acts[..|acts| - 1], k, r)
    ensures LostAt(cfg, s0, acts, k, r)
  {
    hide CauseAt, Run, Count;
    CauseAtPrefix(cfg, s0, acts, k);
    assert acts[..|acts| - 1][..k + 1] == acts[..k + 1] && acts[..|acts| - 1][..k] == acts[..k];
  }

  lemma LastLoss(cfg: Config, s0: State, acts: seq<Action>, r: Raw)
    requires acts != []
    requires Count(Run(cfg, s0, acts).stores.books.lost, r)
           > Count(Run(cfg, s0, acts[..|acts| - 1]).stores.books.lost, r)
    ensures LostAt(cfg, s0, acts, |acts| - 1, r)
  {
    hide Next, CauseOf, Count;
    var n := |acts| - 1;
    assert acts[..n + 1] == acts;
    NextLoss(cfg, Run(cfg, s0, acts[..n]), acts[n]);
  }

  /** Every lost event was lost in a step where one of the causes struck. */
  lemma EveryLossHasACause(cfg: Config, s0: State, acts: seq<Action>, r: Raw)
    requires Count(Run(cfg, s0, acts).stores.books.lost, r) > Count(s0.stores.books.lost, r)
    ensures exists k: nat :: k < |acts| && LostAt(cfg, s0, acts, k, r)
                          && acts[k].Advance? && acts[k].p < |Run(cfg, s0, acts[..k]).procs|
                          && CauseOf(Run(cfg, s0, acts[..k]).procs[acts[k].p], acts[k].reply).Some?
                          && Count(Run(cfg, s0, acts[..k + 1]).stores.books.lost, r)
                             > Count(Run(cfg, s0, acts[..k]).stores.books.lost, r)
  {
    hide Run, CauseOf, Count;
    EveryLossIsAt(cfg, s0, acts, r);
    var k: nat :| k < |acts| && LostAt(cfg, s0, acts, k, r);
  }

  lemma {:induction false} EveryLossIsAt(cfg: Config, s0: State, acts: seq<Action>, r: Raw)
    requires Count(Run(cfg, s0, acts).stores.books.lost, r) > Count(s0.stores.books.lost, r)
    ensures exists k: nat :: k < |acts| && LostAt(cfg, s0, acts, k, r)
  {
    hide Next, LostAt, Count;
    var n := |acts| - 1;
    if Count(Run(cfg, s0, acts[..n]).stores.books.lost, r) > Count(s0.stores.books.lost, r) {
      EveryLossIsAt(cfg, s0, acts[..n], r);
      var k: nat :| k < n && LostAt(cfg, s0, acts[..n], k, r);
      LostAtPrefix(cfg, s0, acts, k, r);
    } else {
      LastLoss(cfg, s0, acts, r);
    }
  }

  /** A fault of step k drops a well-formed, unstored event. */
  predicate LosesAt(cfg: Config, s0: State, acts: seq<Action>, k: nat)
    requires k < |acts|
  {
    && CauseAt(cfg, s0, acts, k).Some?
    && var s := Run(cfg, s0, acts[..k]);
       ValidOf(cfg.checks, AtStake(cfg, s.stores, s.procs[acts[k].p], acts[k].reply)) != []
  }

  lemma NextLossExactly(cfg: Config, s0: State, acts: seq<Action>, k: nat)
    requires k < |acts|
    ensures Run(cfg, s0, acts[..k]).stores.books.lost <= Run(cfg, s0, acts[..k + 1]).stores.books.lost
    ensures Run(cfg, s0, acts[..k + 1]).stores.books.lost != Run(cfg, s0, acts[..k]).stores.books.lost
       <==> LosesAt(cfg, s0, acts, k)
  {
    hide Step, AtStake, ValidOf;
    var s, a := Run(cfg, s0, acts[..k]), acts[k];
    RunSnoc(cfg, s0, acts[..k], a);
    assert acts[..k + 1] == acts[..k] + [a];
    NextLoss(cfg, s, a);
    if a.Advance? && a.p < |s.procs| {
      LossExactlyByCause(cfg, s.stores, s.procs[a.p], a.reply);
    }
  }

  /** A run loses nothing exactly when none of its steps drops such an event. */
  lemma {:induction false} LosesNothingExactly(cfg: Config, s0: State, acts: seq<Action>)
    ensures s0.stores.books.lost <= Run(cfg, s0, acts).stores.books.lost
    ensures Run(cfg, s0, acts).stores.books.lost == s0.stores.books.lost
       <==> forall k :: 0 <= k < |acts| ==> !LosesAt(cfg, s0, acts, k)
  {
    hide Next, LosesAt;
    if acts != [] {
      var n := |acts| - 1;
      LosesNothingExactly(cfg, s0, acts[..n]);
      NextLossExactly(cfg, s0, acts, n);
      assert acts[..n + 1] == acts;
      forall k | 0 <= k < n
        ensures LosesAt(cfg, s0, acts[..n], k) == LosesAt(cfg, s0, acts, k)
      {
        LosesAtPrefix(cfg, s0, acts, k);
      }
    }
  }

  lemma LosesAtPrefix(cfg: Config, s0: State, acts: seq<Action>, k: nat)
    requires k < |acts| - 1
    ensures LosesAt(cfg, s0, acts[..|acts| - 1], k) == LosesAt(cfg, s0, acts, k)
  {
    CauseAtPrefix(cfg, s0, acts, k);
    assert acts[..|acts| - 1][..k] == acts[..k];
  }

  /******* Duplicates *******/

  /** The reply that leads to double storage: a COMMIT that took effect but reports a
      transient error, or a bulk INSERT of the on-demand consumer that was sent, took effect and
      reports any error. */
  predicate Doubles(ph: Phase, reply: Reply) {
    reply.Fault? && reply.applied
    && ((ph.Committing? && IsTransient(reply.code)) || (ph.Inserting? && ph.who.Service? && AllBindable(ph.batch)))
  }

  predicate DoublesAt(cfg: Config, s0: State, acts: seq<Action>, k: nat)
    requires k < |acts|
  {
    var s := Run(cfg, s0, acts[..k]);
    acts[k].Advance? && acts[k].p < |s.procs| && Doubles(s.procs[acts[k].p], acts[k].reply)
  }

  /** Such a step is a statement that took effect behind an error: the worker's COMMIT with one of
      four codes, or the on-demand INSERT of a batch that can be bound, with any code. */
  lemma DoublesAtExactly(cfg: Config, s0: State, acts: seq<Action>, k: nat)
    requires k < |acts|
    ensures DoublesAt(cfg, s0, acts, k) <==>
              (var s, a := Run(cfg, s0, acts[..k]), acts[k];
               && a.Advance? && a.p < |s.procs| && a.reply.Fault? && a.reply.applied
               && ((s.procs[a.p].Committing? && a.reply.code in {"08001", "08003", "08006", "57P01"})
                   || (s.procs[a.p].Inserting? && s.procs[a.p].who == Service
                       && forall i :: 0 <= i < |s.procs[a.p].batch| ==> Bindable(s.procs[a.p].batch[i]))))
  {
    hide Run, Bindable;
  }

  /** A batch on its way back to the list has not been stored. */
  predicate Unmarked(ph: Phase) {
    (ph.Requeueing? ==> !ph.stored) && (ph.RollingBack? && ph.stored ==> !IsTransient(ph.code))
  }

  ghost predicate NoCopies(s: State) {
    s.stores.books.copies == [] && forall p :: 0 <= p < |s.procs| ==> Unmarked(s.procs[p])
  }

  lemma StepNoCopies(cfg: Config, s: Stores, ph: Phase, reply: Reply)
    requires s.books.copies == [] && Unmarked(ph) && !Doubles(ph, reply)
    ensures Step(cfg, s, ph, reply).stores.books.copies == [] && Unmarked(Step(cfg, s, ph, reply).phase)
  {
    hide ValidOf, InvalidOf, WellFormed, AllBindable;
  }

  lemma NextNoCopies(cfg: Config, s: State, a: Action)
    requires NoCopies(s)
    requires a.Advance? && a.p < |s.procs| ==> !Doubles(s.procs[a.p], a.reply)
    ensures NoCopies(Next(cfg, s, a))
  {
    hide Step;
    if a.Advance? && a.p < |s.procs| {
      StepNoCopies(cfg, s.stores, s.procs[a.p], a.reply);
    }
  }

  /** Without such a reply no stored event is ever pushed back. */
  lemma {:induction false} NoDoublingNoCopies(cfg: Config, day: string, acts: seq<Action>)
    requires forall k :: 0 <= k < |acts| ==> !DoublesAt(cfg, Init(cfg, day), acts, k)
    ensures NoCopies(Run(cfg, Init(cfg, day), acts))
  {
    if acts != [] {
      var n, s0 := |acts| - 1, Init(cfg, day);
      forall k | 0 <= k < n
        ensures !DoublesAt(cfg, s0, acts[..n], k)
      {
        assert acts[..n][..k] == acts[..k];
        assert !DoublesAt(cfg, s0, acts, k);
      }
      NoDoublingNoCopies(cfg, day, acts[..n]);
      assert !DoublesAt(cfg, s0, acts, n);
      NextNoCopies(cfg, Run(cfg, s0, acts[..n]), acts[n]);
    }
  }

  /** ... and then no event is stored more often than it was pushed. */
  lemma AtMostOnce(cfg: Config, day: string, acts: seq<Action>, r: Raw)
    requires forall k :: 0 <= k < |acts| ==> !DoublesAt(cfg, Init(cfg, day), acts, k)
    ensures var s := Run(cfg, Init(cfg, day), acts).stores;
            Count(s.table, r) <= Count(s.books.pushed, r)
  {
    Conservation(cfg, day, acts, r);
    NoDoublingNoCopies(cfg, day, acts);
  }

  /******* Delivery *******/

  /** Only malformed events are discarded, only well-formed ones lost. */
  ghost predicate Sorted(cfg: Config, s: Stores) {
    && (forall i :: 0 <= i < |s.books.discarded| ==> !WellFormed(cfg.checks, s.books.discarded[i]))
    && (forall i :: 0 <= i < |s.books.lost| ==> WellFormed(cfg.checks, s.books.lost[i]))
  }

  lemma AbandonSorted(cfg: Config, s: Stores, batch: seq<Raw>)
    requires Sorted(cfg, s)
    ensures Sorted(cfg, Abandon(cfg, s, batch))
  {
    hide WellFormed;
  }

  /** Each command leaves the two piles alone or abandons a batch onto them. */
  lemma StepAbandons(cfg: Config, s: Stores, ph: Phase, reply: Reply)
    ensures exists batch :: Step(cfg, s, ph, reply).stores.books.(pushed := [], copies := [])
                         == Abandon(cfg, s, batch).books.(pushed := [], copies := [])
  {
    hide ValidOf, InvalidOf, WellFormed;
    NoValid(cfg.checks);
    var m := Step(cfg, s, ph, reply).stores.books.(pushed := [], copies := []);
    if m == s.books.(pushed := [], copies := []) {
      assert s.books.lost + [] == s.books.lost && s.books.discarded + [] == s.books.discarded;
      assert m == Abandon(cfg, s, []).books.(pushed := [], copies := []);
    } else {
      AbandonedBatch(cfg, s, ph, reply);
    }
  }

  lemma AbandonedBatch(cfg: Config, s: Stores, ph: Phase, reply: Reply)
    requires Step(cfg, s, ph, reply).stores.books.(pushed := [], copies := [])
          != s.books.(pushed := [], copies := [])
    ensures exists batch :: Step(cfg, s, ph, reply).stores.books.(pushed := [], copies := [])
                         == Abandon(cfg, s, batch).books.(pushed := [], copies := [])
  {
    hide ValidOf, InvalidOf, WellFormed, Unstored;
    var m := Step(cfg, s, ph, reply).stores.books.(pushed := [], copies := []);
    match ph
    case Popping(left, got) =>
      assert m == Abandon(cfg, s, if left == 0 then got else [s.buffer[0]]).books.(pushed := [], copies := []);
    case Draining(left, got) =>
      assert m == Abandon(cfg, s, if s.buffer == [] || (reply.Fault? && !reply.applied) then got
                                  else if reply.Fault? then got + [s.buffer[0]] else [s.buffer[0]])
                  .books.(pushed := [], copies := []);
    case Connecting(who, batch) => assert m == Abandon(cfg, s, batch).books.(pushed := [], copies := []);
    case Committing(batch) =>
      assert m == Abandon(cfg, s, InvalidOf(cfg.checks, batch)).books.(pushed := [], copies := []);
    case RollingBack(batch, code, stored) =>
      assert m == Abandon(cfg, s, Unstored(cfg.checks, Worker, batch, stored)).books.(pushed := [], copies := []);
    case Requeueing(who, rest, stored) =>
      assert m == Abandon(cfg, s, Unstored(cfg.checks, who, if reply.applied then rest[1..] else rest, stored))
                  .books.(pushed := [], copies := []);
    case _ =>
  }

  lemma {:induction false} RunSorted(cfg: Config, day: string, acts: seq<Action>)
    ensures Sorted(cfg, Run(cfg, Init(cfg, day), acts).stores)
  {
    if acts != [] {
      hide Step, WellFormed;
      RunSorted(cfg, day, acts[..|acts| - 1]);
      var s, a := Run(cfg, Init(cfg, day), acts[..|acts| - 1]), acts[|acts| - 1];
      if a.Advance? && a.p < |s.procs| {
        StepAbandons(cfg, s.stores, s.procs[a.p], a.reply);
        var batch :| Step(cfg, s.stores, s.procs[a.p], a.reply).stores.books.(pushed := [], copies := [])
                  == Abandon(cfg, s.stores, batch).books.(pushed := [], copies := []);
        AbandonSorted(cfg, s.stores, batch);
      }
    }
  }

  lemma {:induction false} CountAbsent(s: seq<Raw>, r: Raw)
    requires forall i :: 0 <= i < |s| ==> s[i] != r
    ensures Count(s, r) == 0
  {
    if s != [] {
      CountAbsent(s[..|s| - 1], r);
    }
  }

  /** The list is empty and no process holds this event. */
  ghost predicate Quiet(cfg: Config, s: State, r: Raw) {
    s.stores.buffer == [] && InHands(cfg, s.procs, r) == 0
  }

  /** In a quiet pipeline a well-formed event has been stored at least as often as it was
      pushed exactly when it was not lost more often than it had been stored already. */
  lemma DeliveredExactlyWhenNotLost(cfg: Config, day: string, acts: seq<Action>, r: Raw)
    requires Quiet(cfg, Run(cfg, Init(cfg, day), acts), r) && WellFormed(cfg.checks, r)
    ensures var s := Run(cfg, Init(cfg, day), acts).stores;
            Count(s.table, r) >= Count(s.books.pushed, r) <==> Count(s.books.lost, r) <= Count(s.books.copies, r)
  {
    Conservation(cfg, day, acts, r);
    RunSorted(cfg, day, acts);
    CountAbsent(Run(cfg, Init(cfg, day), acts).stores.books.discarded, r);
  }

  /** A run with none of the faults above stores every well-formed event exactly as often as
      it was pushed. */
  lemma ExactlyOnceWithoutFaults(cfg: Config, day: string, acts: seq<Action>, r: Raw)
    requires Quiet(cfg, Run(cfg, Init(cfg, day), acts), r) && WellFormed(cfg.checks, r)
    requires forall k :: 0 <= k < |acts| ==> !DoublesAt(cfg, Init(cfg, day), acts, k)
    requires forall k :: 0 <= k < |acts| ==> CauseAt(cfg, Init(cfg, day), acts, k).None?
    ensures var s := Run(cfg, Init(cfg, day), acts).stores;
            Count(s.table, r) == Count(s.books.pushed, r)
  {
    var s := Run(cfg, Init(cfg, day), acts).stores;
    AtMostOnce(cfg, day, acts, r);
    DeliveredExactlyWhenNotLost(cfg, day, acts, r);
    if Count(s.books.lost, r) > 0 {
      EveryLossHasACause(cfg, Init(cfg, day), acts, r);
    }
  }

  /******* At-least-once fails *******/

  /** One click, tracked and popped without a fault, and a pool that reports a connection
      failure with a code on the worker's own transient list. */
  function ConnectFailureRun(ip: string): seq<Action> {
    [Arrive("7", "2026-04-01", ip, "", ""), Advance(1, Done), Advance(1, Done), Advance(1, Done),
     Advance(1, Done), Tick(0), Advance(0, Done), Advance(0, Done), Advance(0, Fault(false, "08006"))]
  }

  /** The same run in two halves: the click is tracked, then the worker loses it. */
  lemma ClickTracked(cfg: Config, ip: string, acts: seq<Action>, e: Event)
    requires cfg.workers == 1 && cfg.checks.isIP(ip) && acts == ConnectFailureRun(ip)[..5]
    requires e == Captured("7", "2026-04-01", ip, "", "")
    ensures var s := Run(cfg, Init(cfg, "2026-04-01"), acts);
            s.procs == [Idle, Tracked] && s.stores.buffer == [Payload(e)] && s.stores.table == []
            && s.stores.books == Books([Payload(e)], [], [], [])
  {
    hide Payload, Captured;
    var s0, all := Init(cfg, "2026-04-01"), ConnectFailureRun(ip);
    assert s0.procs == [Idle];
    RunSnoc(cfg, s0, [], all[0]);
    var s1 := Run(cfg, s0, [] + [all[0]]);
    assert s1.procs == [Idle, Checking(e)];
    RunSnoc(cfg, s0, [] + [all[0]], all[1]);
    RunSnoc(cfg, s0, [] + [all[0]] + [all[1]], all[2]);
    RunSnoc(cfg, s0, [] + [all[0]] + [all[1]] + [all[2]], all[3]);
    RunSnoc(cfg, s0, [] + [all[0]] + [all[1]] + [all[2]] + [all[3]], all[4]);
    assert acts == [] + [all[0]] + [all[1]] + [all[2]] + [all[3]] + [all[4]];
  }

  lemma BatchLost(cfg: Config, s: State, r: Raw)
    requires cfg.batch == 1 && WellFormed(cfg.checks, r)
    requires s.procs == [Idle, Tracked] && s.stores.buffer == [r]
    ensures var s1 := Next(cfg, s, Tick(0));
            var s2 := Next(cfg, s1, Advance(0, Done));
            var s3 := Next(cfg, s2, Advance(0, Done));
            Next(cfg, s3, Advance(0, Fault(false, "08006")))
              == State(Abandon(cfg, s.stores.(buffer := []), [r]), [Idle, Tracked])
  {
    SingleValid(cfg.checks, r);
    hide WellFormed, ValidOf, InvalidOf;
    var s1 := Next(cfg, s, Tick(0));
    assert s1.procs == [Popping(1, []), Tracked];
    var s2 := Next(cfg, s1, Advance(0, Done));
    assert [] + [r] == [r];
    assert s2.procs == [Popping(0, [r]), Tracked];
    var s3 := Next(cfg, s2, Advance(0, Done));
    assert s3.procs == [Connecting(Worker, [r]), Tracked];
  }

  /** The click is gone: nothing is left in the list or in any process, and nothing was stored. */
  lemma TransientConnectFailureLosesTheClick(checks: Checks, ip: string)
    requires Sound(checks) && checks.isIP(ip)
    ensures var cfg, r := Config(checks, 1, 1), Payload(Captured("7", "2026-04-01", ip, "", ""));
            var s := Run(cfg, Init(cfg, "2026-04-01"), ConnectFailureRun(ip));
            IsTransient("08006") && WellFormed(checks, r) && s.stores.books.pushed == [r]
            && Quiet(cfg, s, r) && s.stores.table == [] && s.stores.books.lost == [r]
  {
    var cfg, e := Config(checks, 1, 1), Captured("7", "2026-04-01", ip, "", "");
    var r, s0, all := Payload(e), Init(cfg, "2026-04-01"), ConnectFailureRun(ip);
    PayloadWellFormed(checks, e);
    SingleValid(checks, r);
    hide Payload, WellFormed, Sound, ValidOf, InvalidOf, Total, Captured, Run, Next;
    ClickTracked(cfg, ip, all[..5], e);
    BatchLostBy(cfg, s0, all, r);
    IdleHoldsNothing(cfg, r);
  }

  lemma BatchLostBy(cfg: Config, s0: State, all: seq<Action>, r: Raw)
    requires cfg.batch == 1 && WellFormed(cfg.checks, r) && |all| == 9
    requires Run(cfg, s0, all[..5]).procs == [Idle, Tracked] && Run(cfg, s0, all[..5]).stores.buffer == [r]
    requires all[5] == Tick(0) && all[6] == all[7] == Advance(0, Done) && all[8] == Advance(0, Fault(false, "08006"))
    ensures var s := Run(cfg, s0, all[..5]);
            Run(cfg, s0, all) == State(Abandon(cfg, s.stores.(buffer := []), [r]), [Idle, Tracked])
  {
    hide Run, Next, WellFormed, Abandon;
    BatchLost(cfg, Run(cfg, s0, all[..5]), r);
    LastFour(cfg, s0, all);
  }

  lemma LastFour(cfg: Config, s0: State, all: seq<Action>)
    requires |all| == 9
    ensures Run(cfg, s0, all)
         == Next(cfg, Next(cfg, Next(cfg, Next(cfg, Run(cfg, s0, all[..5]), all[5]), all[6]), all[7]), all[8])
  {
    hide Next;
    RunSnoc(cfg, s0, all[..5], all[5]);
    RunSnoc(cfg, s0, all[..6], all[6]);
    RunSnoc(cfg, s0, all[..7], all[7]);
    RunSnoc(cfg, s0, all[..8], all[8]);
    assert all[..6] == all[..5] + [all[5]] && all[..7] == all[..6] + [all[6]];
    assert all[..8] == all[..7] + [all[7]] && all == all[..8] + [all[8]];
  }

  lemma IdleHoldsNothing(cfg: Config, r: Raw)
    ensures InHands(cfg, [Idle, Tracked], r) == 0
  {
    assert [Idle, Tracked][..1] == [Idle] && [Idle][..0] == [];
  }
}
