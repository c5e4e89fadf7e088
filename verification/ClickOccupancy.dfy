/**
 The size of the click buffer, over every run of `ClickMachine`. Producers check the
 length and push later, and re-queues do not check at all, so MAX_BUFFER_SIZE is not a
 bound. The bound that does hold counts the producers that are past their check and the
 events the consumers hold.
 */
module ClickOccupancy {
  import opened Environment
  import opened ClickEvents
  import opened ClickMachine
  import opened ClickLedger

  /** 1 for a producer between its LLEN check and its RPUSH. */
  function Pending(ph: Phase): nat {
    if ph.Counting? || ph.Visiting? || ph.Pushing? then 1 else 0
  }

  /** How many popped events a process holds. */
  function HandSize(ph: Phase): nat {
    match ph
    case Popping(_, got) => |got|
    case Draining(_, got) => |got|
    case Connecting(_, batch) => |batch|
    case Beginning(batch) => |batch|
    case Inserting(_, batch) => |batch|
    case Committing(batch) => |batch|
    case RollingBack(batch, _, _) => |batch|
    case Requeueing(_, rest, _) => |rest|
    case _ => 0
  }

  /** The flush workers' phases. */
  predicate IsWorker(ph: Phase) {
    match ph
    case Idle => true
    case Popping(_, _) => true
    case Connecting(who, _) => who.Worker?
    case Beginning(_) => true
    case Inserting(who, _) => who.Worker?
    case Committing(_) => true
    case RollingBack(_, _, _) => true
    case Requeueing(who, _, _) => who.Worker?
    case _ => false
  }

  /** How many events a running on-demand call may still come to hold: what it holds, and what
      is left of the size it was called with. A finished call holds none. */
  function CallLimit(ph: Phase): nat {
    if IsWorker(ph) then 0
    else
      match ph
      case Draining(left, got) => left + |got|
      case _ => HandSize(ph)
  }

  function WorkerLimit(cfg: Config): Phase -> nat {
    (ph: Phase) => if IsWorker(ph) then cfg.batch else 0
  }

  /** How many it may come to hold: a worker its batch size for good, an on-demand consumer
      what is left of the size it was called with. */
  function HandLimit(cfg: Config): Phase -> nat {
    (ph: Phase) => (if IsWorker(ph) then cfg.batch else 0) + CallLimit(ph)
  }

  /** No process holds more than its limit. */
  predicate WithinLimit(cfg: Config, ph: Phase) {
    match ph
    case Popping(left, got) => left + |got| <= cfg.batch
    case Draining(left, _) => left >= 1
    case _ => HandSize(ph) <= HandLimit(cfg)(ph)
  }

  /** The events pushed from outside. */
  function Foreigners(acts: seq<Action>): nat {
    if acts == [] then 0
    else Foreigners(acts[..|acts| - 1]) + if acts[|acts| - 1].Foreign? then 1 else 0
  }

  lemma ForeignersExactly(acts: seq<Action>, a: Action)
    ensures Foreigners([]) == 0
    ensures Foreigners(acts + [a]) == Foreigners(acts) + if a.Foreign? then 1 else 0
  {
    assert (acts + [a])[..|acts|] == acts;
  }

  function Occupancy(s: State): nat {
    |s.stores.buffer| + Total(s.procs, Pending) + Total(s.procs, HandSize)
  }

  lemma StepWithinLimit(cfg: Config, s: Stores, ph: Phase, reply: Reply)
    requires WithinLimit(cfg, ph)
    ensures WithinLimit(cfg, Step(cfg, s, ph, reply).phase)
    ensures IsWorker(Step(cfg, s, ph, reply).phase) == IsWorker(ph)
    ensures HandLimit(cfg)(Step(cfg, s, ph, reply).phase) <= HandLimit(cfg)(ph)
  {
    hide ValidOf, InvalidOf, AllBindable;
  }

  /** No command makes room for itself except a passed check. */
  lemma StepOccupancy(cfg: Config, s: Stores, ph: Phase, reply: Reply)
    ensures var m := Step(cfg, s, ph, reply);
            var before := |s.buffer| + Pending(ph) + HandSize(ph);
            var after := |m.stores.buffer| + Pending(m.phase) + HandSize(m.phase);
            after <= before || (ph.Checking? && m.phase.Counting? && m.stores == s && |s.buffer| < MAX_BUFFER_SIZE)
  {
    hide ValidOf, InvalidOf, AllBindable;
  }

  /** Every process keeps to its limit, and there are as many workers as configured. */
  ghost predicate Limited(cfg: Config, s: State) {
    && (forall p :: 0 <= p < |s.procs| ==> WithinLimit(cfg, s.procs[p]))
    && Total(s.procs, WorkerLimit(cfg)) == cfg.workers * cfg.batch
  }

  lemma NextLimited(cfg: Config, s: State, a: Action)
    requires Limited(cfg, s)
    ensures Limited(cfg, Next(cfg, s, a))
  {
    hide Step, Total;
    match a
    case Tick(p) =>
      if p < |s.procs| {
        TotalUpdate(s.procs, p, Popping(cfg.batch, []), WorkerLimit(cfg));
      }
    case Advance(p, reply) =>
      if p < |s.procs| {
        StepWithinLimit(cfg, s.stores, s.procs[p], reply);
        TotalUpdate(s.procs, p, Step(cfg, s.stores, s.procs[p], reply).phase, WorkerLimit(cfg));
      }
    case Midnight(_) =>
    case Foreign(_) =>
    case _ =>
      if Spawned(cfg, a).Some? {
        TotalAppend(s.procs, Spawned(cfg, a).value, WorkerLimit(cfg));
      }
  }

  lemma {:induction false} TotalOfIdleLimit(cfg: Config, n: nat)
    ensures Total(seq(n, i => Idle), WorkerLimit(cfg)) == n * cfg.batch
  {
    if n > 0 {
      TotalOfIdleLimit(cfg, n - 1);
      assert seq(n, i => Idle)[..n - 1] == seq(n - 1, i => Idle);
      assert n * cfg.batch == (n - 1) * cfg.batch + cfg.batch;
    }
  }

  lemma {:induction false} AllLimited(cfg: Config, day: string, acts: seq<Action>)
    ensures Limited(cfg, Run(cfg, Init(cfg, day), acts))
  {
    hide Next;
    if acts == [] {
      TotalOfIdleLimit(cfg, cfg.workers);
    } else {
      AllLimited(cfg, day, acts[..|acts| - 1]);
      NextLimited(cfg, Run(cfg, Init(cfg, day), acts[..|acts| - 1]), acts[|acts| - 1]);
    }
  }

  lemma {:induction false} TotalOfSum(procs: seq<Phase>, f: Phase -> nat, g: Phase -> nat, h: Phase -> nat)
    requires forall ph :: h(ph) == f(ph) + g(ph)
    ensures Total(procs, h) == Total(procs, f) + Total(procs, g)
  {
    if procs != [] {
      TotalOfSum(procs[..|procs| - 1], f, g, h);
    }
  }

  /** At every moment the consumers together hold at most a batch for each worker and what the
      on-demand calls then running may still hold; a finished call counts for nothing. */
  lemma HandsBounded(cfg: Config, day: string, acts: seq<Action>)
    ensures var procs := Run(cfg, Init(cfg, day), acts).procs;
            Total(procs, HandSize) <= cfg.workers * cfg.batch + Total(procs, CallLimit)
  {
    hide Run, Total;
    AllLimited(cfg, day, acts);
    var procs := Run(cfg, Init(cfg, day), acts).procs;
    TotalMonotone(procs, HandSize, HandLimit(cfg));
    TotalOfSum(procs, WorkerLimit(cfg), CallLimit, HandLimit(cfg));
  }

  /** One action adds to the occupancy only by a passed check or from outside. */
  lemma NextOccupancy(cfg: Config, s: State, a: Action)
    ensures Occupancy(Next(cfg, s, a)) <= Occupancy(s) + (if a.Foreign? then 1 else 0)
         || |Next(cfg, s, a).stores.buffer| < 10000
  {
    hide Step, Total;
    match a
    case Tick(p) =>
      if p < |s.procs| {
        TotalUpdate(s.procs, p, Popping(cfg.batch, []), Pending);
        TotalUpdate(s.procs, p, Popping(cfg.batch, []), HandSize);
      }
    case Advance(p, reply) =>
      if p < |s.procs| {
        StepOccupancy(cfg, s.stores, s.procs[p], reply);
        TotalUpdate(s.procs, p, Step(cfg, s.stores, s.procs[p], reply).phase, Pending);
        TotalUpdate(s.procs, p, Step(cfg, s.stores, s.procs[p], reply).phase, HandSize);
      }
    case Midnight(_) =>
    case Foreign(_) =>
    case _ =>
      if Spawned(cfg, a).Some? {
        TotalAppend(s.procs, Spawned(cfg, a).value, Pending);
        TotalAppend(s.procs, Spawned(cfg, a).value, HandSize);
      }
  }

  /** No more than `producers` producers are between their check and their push, nor do the
      running on-demand calls hold, or may yet take, more than `quota` events. */
  predicate StateWithin(s: State, producers: nat, quota: nat) {
    Total(s.procs, Pending) <= producers && Total(s.procs, CallLimit) <= quota
  }

  /** The list, the producers about to push and the events in hand together never exceed 9999,
      plus one event a producer past its check, plus a batch a worker, plus what the on-demand
      calls running at one time may hold, plus what others pushed. With one worker, no on-demand
      calls and no foreign writers this is 9999 + P + B. */
  lemma {:induction false} OccupancyBound(cfg: Config, day: string, acts: seq<Action>, producers: nat, quota: nat)
    requires forall k :: 0 <= k <= |acts| ==> StateWithin(Run(cfg, Init(cfg, day), acts[..k]), producers, quota)
    ensures var s := Run(cfg, Init(cfg, day), acts);
            |s.stores.buffer| + Total(s.procs, Pending) + Total(s.procs, HandSize)
            <= 9999 + producers + cfg.workers * cfg.batch + quota + Foreigners(acts)
  {
    hide Next, Total, StateWithin;
    assert acts[..|acts|] == acts;
    HandsBounded(cfg, day, acts);
    assert StateWithin(Run(cfg, Init(cfg, day), acts), producers, quota);
    WithinNow(Run(cfg, Init(cfg, day), acts), producers, quota);
    if acts == [] {
    } else {
      var n := |acts| - 1;
      forall k | 0 <= k <= n
        ensures StateWithin(Run(cfg, Init(cfg, day), acts[..n][..k]), producers, quota)
      {
        assert acts[..n][..k] == acts[..k];
      }
      OccupancyBound(cfg, day, acts[..n], producers, quota);
      NextOccupancy(cfg, Run(cfg, Init(cfg, day), acts[..n]), acts[n]);
    }
  }

  lemma WithinNow(s: State, producers: nat, quota: nat)
    ensures StateWithin(s, producers, quota)
       <==> Total(s.procs, Pending) <= producers && Total(s.procs, CallLimit) <= quota
  {
  }
}
