/**
 The liveness half of delivery: with a worker and a positive batch size, every reachable state
 of `ClickMachine` comes to rest by steps without a fault, and such steps lose nothing that an
 earlier error has not already condemned.
 */
module ClickLiveness {
  import opened Environment
  import opened ClickEvents
  import opened ClickMachine
  import opened ClickLedger
  import opened ClickDelivery
  import opened ClickOccupancy
  import opened ClickGuarantees

  predicate Resting(ph: Phase) {
    ph.Idle? || ph.Tracked? || ph.Consumed?
  }

  /** A bound on the commands a process still sends if all of them succeed. */
  function Work(ph: Phase): nat {
    match ph
    case Checking(_) => 4
    case Counting(_) => 3
    case Visiting(_) => 2
    case Pushing(_) => 1
    case Popping(left, got) => 2 * left + |got| + 6
    case Draining(left, got) => 2 * left + |got| + 7
    case Connecting(_, batch) => |batch| + 5
    case Beginning(batch) => |batch| + 4
    case Inserting(_, batch) => |batch| + 3
    case Committing(_) => 1
    case RollingBack(batch, _, _) => |batch| + 2
    case Requeueing(_, rest, _) => |rest| + 1
    case _ => 0
  }

  /** A cycle that no error has met: its process takes events off the list and puts none back. */
  predicate Forward(ph: Phase) {
    ph.Idle? || ph.Popping? || (ph.Connecting? && ph.who.Worker?) || ph.Beginning?
    || (ph.Inserting? && ph.who.Worker?) || ph.Committing?
  }

  /** Not on the way to discarding a batch after a persistent error. */
  predicate Harmless(ph: Phase) {
    ph.RollingBack? ==> IsTransient(ph.code)
  }

  /** Only ticks and commands that succeed. */
  predicate FaultFree(acts: seq<Action>) {
    forall i :: 0 <= i < |acts| ==> acts[i].Tick? || (acts[i].Advance? && acts[i].reply.Done?)
  }

  lemma StepWorks(cfg: Config, s: Stores, ph: Phase)
    requires !Resting(ph)
    ensures Work(Step(cfg, s, ph, Done).phase) < Work(ph)
    ensures IsWorker(Step(cfg, s, ph, Done).phase) == IsWorker(ph)
    ensures Harmless(Step(cfg, s, ph, Done).phase)
  {
    hide ValidOf, InvalidOf, WellFormed, AllBindable, Payload, Unstored, IsStored, Abandon;
  }

  lemma StepForward(cfg: Config, s: Stores, ph: Phase)
    requires Forward(ph)
    ensures Forward(Step(cfg, s, ph, Done).phase)
    ensures |Step(cfg, s, ph, Done).stores.buffer| <= |s.buffer|
  {
    hide ValidOf, InvalidOf, WellFormed, AllBindable, Payload, Unstored, IsStored;
  }

  lemma StepLosesNothing(cfg: Config, s: Stores, ph: Phase)
    requires Harmless(ph)
    ensures Step(cfg, s, ph, Done).stores.books.lost == s.books.lost
  {
    hide Step, AtStake;
    StepLoss(cfg, s, ph, Done);
  }

  /** What a stretch of fault-free steps of process p keeps, from s to t. */
  ghost predicate Kept(s: State, t: State, p: nat)
    requires p < |s.procs|
  {
    && |t.procs| == |s.procs|
    && (forall q :: 0 <= q < |s.procs| && q != p ==> t.procs[q] == s.procs[q])
    && IsWorker(t.procs[p]) == IsWorker(s.procs[p])
    && (Forward(s.procs[p]) ==> Forward(t.procs[p]) && |t.stores.buffer| <= |s.stores.buffer|)
    && (Harmless(s.procs[p]) ==> t.stores.books.lost == s.stores.books.lost)
    && (Harmless(s.procs[p]) ==> Harmless(t.procs[p]))
  }

  lemma OneKept(cfg: Config, s: State, p: nat)
    requires p < |s.procs| && !Resting(s.procs[p])
    ensures var t := Next(cfg, s, Advance(p, Done));
            Kept(s, t, p) && Work(t.procs[p]) < Work(s.procs[p]) && Harmless(t.procs[p])
  {
    hide Step, Forward, IsWorker, Harmless, Work;
    StepWorks(cfg, s.stores, s.procs[p]);
    if Forward(s.procs[p]) {
      StepForward(cfg, s.stores, s.procs[p]);
    }
    if Harmless(s.procs[p]) {
      StepLosesNothing(cfg, s.stores, s.procs[p]);
    }
  }

  /** One process finishes what it is doing. */
  lemma {:induction false} SettleOne(cfg: Config, s: State, p: nat) returns (more: seq<Action>)
    requires p < |s.procs|
    ensures FaultFree(more) && Kept(s, Run(cfg, s, more), p) && Resting(Run(cfg, s, more).procs[p])
    decreases Work(s.procs[p])
  {
    hide Next, Forward, Harmless, IsWorker;
    if Resting(s.procs[p]) {
      more := [];
    } else {
      OneKept(cfg, s, p);
      var t := Next(cfg, s, Advance(p, Done));
      var rest := SettleOne(cfg, t, p);
      more := [Advance(p, Done)] + rest;
      RunOne(cfg, s, Advance(p, Done));
      RunConcat(cfg, s, [Advance(p, Done)], rest);
    }
  }

  ghost predicate AllHarmless(s: State) {
    forall p :: 0 <= p < |s.procs| ==> Harmless(s.procs[p])
  }

  ghost predicate FirstResting(s: State, k: nat) {
    forall p :: 0 <= p < |s.procs| && p < k ==> Resting(s.procs[p])
  }

  /** All processes do, one after another. */
  lemma {:induction false} SettleAll(cfg: Config, s: State, k: nat) returns (more: seq<Action>)
    requires k <= |s.procs|
    ensures var t := Run(cfg, s, more);
            && FaultFree(more) && |t.procs| == |s.procs| && FirstResting(t, k)
            && (forall p :: 0 <= p < |s.procs| ==> IsWorker(t.procs[p]) == IsWorker(s.procs[p]))
            && (AllHarmless(s) ==> AllHarmless(t) && t.stores.books.lost == s.stores.books.lost)
  {
    hide Next, Forward, Harmless, IsWorker, Resting;
    if k == 0 {
      more := [];
    } else {
      var front := SettleAll(cfg, s, k - 1);
      var t := Run(cfg, s, front);
      var last := SettleOne(cfg, t, k - 1);
      more := front + last;
      RunConcat(cfg, s, front, last);
    }
  }

  /** A cycle of worker 0 over a non-empty list, all else at rest. */
  lemma OneCycle(cfg: Config, s: State) returns (more: seq<Action>)
    requires cfg.batch > 0 && s.procs != [] && s.procs[0].Idle? && s.stores.buffer != []
    requires FirstResting(s, |s.procs|)
    ensures var t := Run(cfg, s, more);
            && FaultFree(more) && |t.procs| == |s.procs| && FirstResting(t, |t.procs|) && t.procs[0].Idle?
            && |t.stores.buffer| < |s.stores.buffer| && t.stores.books.lost == s.stores.books.lost
  {
    hide Run, Forward, Harmless, Work;
    var s1 := Next(cfg, s, Tick(0));
    var s2 := Next(cfg, s1, Advance(0, Done));
    assert s1.procs[0] == Popping(cfg.batch, []);
    FirstPop(cfg, s1);
    var rest := SettleOne(cfg, s2, 0);
    var two := [Tick(0)] + [Advance(0, Done)];
    more := two + rest;
    RunOne(cfg, s, Tick(0));
    RunSnoc(cfg, s, [Tick(0)], Advance(0, Done));
    RunConcat(cfg, s, two, rest);
  }

  lemma FirstPop(cfg: Config, s: State)
    requires s.procs != [] && s.procs[0].Popping? && s.procs[0].left > 0 && s.stores.buffer != []
    ensures var t := Next(cfg, s, Advance(0, Done));
            && t.procs == s.procs[0 := t.procs[0]] && t.procs[0].Popping?
            && Forward(t.procs[0]) && Harmless(t.procs[0])
            && t.stores.buffer == s.stores.buffer[1..] && t.stores.books.lost == s.stores.books.lost
  {
    hide ValidOf, InvalidOf;
  }

  lemma {:induction false} EmptyBuffer(cfg: Config, s: State) returns (more: seq<Action>)
    requires cfg.batch > 0 && s.procs != [] && s.procs[0].Idle? && FirstResting(s, |s.procs|)
    ensures var t := Run(cfg, s, more);
            && FaultFree(more) && t.stores.buffer == [] && FirstResting(t, |t.procs|)
            && t.stores.books.lost == s.stores.books.lost
    decreases |s.stores.buffer|
  {
    hide Next, Resting;
    if s.stores.buffer == [] {
      more := [];
    } else {
      var cycle := OneCycle(cfg, s);
      var rest := EmptyBuffer(cfg, Run(cfg, s, cycle));
      more := cycle + rest;
      RunConcat(cfg, s, cycle, rest);
    }
  }

  lemma {:induction false} FirstIsWorker(cfg: Config, day: string, acts: seq<Action>)
    requires cfg.workers > 0
    ensures var s := Run(cfg, Init(cfg, day), acts);
            s.procs != [] && IsWorker(s.procs[0])
  {
    if acts != [] {
      hide Step, IsWorker;
      FirstIsWorker(cfg, day, acts[..|acts| - 1]);
      var s, a := Run(cfg, Init(cfg, day), acts[..|acts| - 1]), acts[|acts| - 1];
      WorkerKinds(cfg);
      if a.Advance? && a.p == 0 {
        AnyStepKind(cfg, s.stores, s.procs[0], a.reply);
      }
    }
  }

  lemma WorkerKinds(cfg: Config)
    ensures IsWorker(Idle) && IsWorker(Popping(cfg.batch, []))
  {
  }

  lemma AnyStepKind(cfg: Config, s: Stores, ph: Phase, reply: Reply)
    ensures IsWorker(Step(cfg, s, ph, reply).phase) == IsWorker(ph)
  {
    hide ValidOf, InvalidOf, WellFormed, AllBindable, Payload, Unstored, IsStored, Abandon;
  }

  lemma RestingAtRest(cfg: Config, s: State)
    requires s.stores.buffer == [] && FirstResting(s, |s.procs|)
    ensures AtRest(cfg, s)
  {
  }

  /** From every reachable state, whatever faults came before, ticks and successful commands
      lead to rest; and unless a persistent error is already being rolled back, nothing more is
      lost on the way. */
  lemma RestIsReachable(cfg: Config, day: string, acts: seq<Action>) returns (more: seq<Action>)
    requires cfg.workers > 0 && cfg.batch > 0
    ensures forall a <- more :: a.Tick? || (a.Advance? && a.reply == Done)
    ensures AtRest(cfg, Run(cfg, Init(cfg, day), acts + more))
    ensures (forall ph <- Run(cfg, Init(cfg, day), acts).procs ::
               ph.RollingBack? ==> ph.code in {"08001", "08003", "08006", "57P01"}) ==>
              Run(cfg, Init(cfg, day), acts + more).stores.books.lost
              == Run(cfg, Init(cfg, day), acts).stores.books.lost
  {
    hide Run, Next, Init, IsWorker, AtRest;
    var s := Run(cfg, Init(cfg, day), acts);
    FirstIsWorker(cfg, day, acts);
    var settle := SettleAll(cfg, s, |s.procs|);
    var t := Run(cfg, s, settle);
    RestingWorker(t.procs[0]);
    var empty := EmptyBuffer(cfg, t);
    more := settle + empty;
    RunConcat(cfg, s, settle, empty);
    RunConcat(cfg, Init(cfg, day), acts, more);
    RestingAtRest(cfg, Run(cfg, t, empty));
  }

  lemma RestingWorker(ph: Phase)
    requires IsWorker(ph)
    ensures Resting(ph) <==> ph.Idle?
  {
  }

  /** So as long as no step has dropped a well-formed, unstored event and none is condemned,
      delivery can still become at least once: fault-free steps lead there. */
  lemma DeliveryIsReachable(cfg: Config, day: string, acts: seq<Action>) returns (more: seq<Action>)
    requires cfg.workers > 0 && cfg.batch > 0
    requires NoneLoses(cfg, day, acts)
    requires forall ph <- Run(cfg, Init(cfg, day), acts).procs ::
               ph.RollingBack? ==> ph.code in {"08001", "08003", "08006", "57P01"}
    ensures forall a <- more :: a.Tick? || (a.Advance? && a.reply == Done)
    ensures AtRest(cfg, Run(cfg, Init(cfg, day), acts + more))
    ensures DeliversAtLeastOnce(cfg, Run(cfg, Init(cfg, day), acts + more).stores)
  {
    hide Run, AtRest, WellFormed, Count, NoneLoses, Harmless, DeliversAtLeastOnce;
    more := RestIsReachable(cfg, day, acts);
    LossIsSeen(cfg, day, acts);
    LossIsSeen(cfg, day, acts + more);
    NothingDroppedDelivers(cfg, day, acts + more);
  }
}
