/**
 The fixed-window rate limiter as a step system: any number of requests from one address
 share one Redis counter. A request passes the limiter once on its way in and, for an API
 route, a second time at the route (src/bootstrap/main/server.ts:47,
 src/routes/shortener.ts:27,57). The three pipelined commands are separate steps, so other
 requests come between them; commands may fail, and the clock moves at any moment.
 (src/middleware/rate_limiter/index.ts:25-75)
 */
module RateLimiterMachine {
  import opened Environment

  /** RATE_LIMIT_MAX and RATE_LIMIT_WINDOW_SECONDS. */
  datatype Config = Config(max: nat, window: nat)

  /** One executed INCR: when, in which lifetime of the key, what it answered, and for which
      request and which of its two limiter calls. */
  datatype Stamp = Stamp(at: int, epoch: nat, count: nat, p: nat, mount: nat)

  datatype Key = Absent | Present(count: nat, deadline: Option<int>)

  /** `births[e - 1]` is the time lifetime e of the key began. */
  datatype Stores = Stores(now: int, key: Key, births: seq<int>, log: seq<Stamp>)

  /** Which limiter call of a request this is (1 or 2), whether a second follows, and the
      stamp the first one passed with. */
  datatype Call = Call(mount: nat, api: bool, first: Option<Stamp>)

  datatype Phase =
    | Incrementing(call: Call)                                      // INCR
    | Expiring(call: Call, got: Option<Stamp>)                      // EXPIRE NX
    | Timing(call: Call, got: Option<Stamp>)                        // TTL
    | Replying(call: Call, got: Option<Stamp>, ttl: Option<int>)    // the pipeline's combined reply
    | FallingBack(call: Call, got: Option<Stamp>)                   // EXPIRE
    | Handled(first: Option<Stamp>, second: Option<Stamp>)
    | Blocked(stamp: Stamp)                                         // status 429

  datatype State = State(stores: Stores, procs: seq<Phase>)

  datatype Move = Move(stores: Stores, phase: Phase)

  datatype Action = Arrive(api: bool) | Advance(p: nat, reply: Reply) | Pass(seconds: nat)

  function Init(now: int): State {
    State(Stores(now, Absent, [], []), [])
  }

  /** The key as a command finds it: past its deadline it is gone. */
  function Current(s: Stores): Key {
    if s.key.Present? && s.key.deadline.Some? && s.key.deadline.value <= s.now then Absent else s.key
  }

  function Increment(s: Stores, p: nat, mount: nat): Stores {
    match Current(s)
    case Absent =>
      s.(key := Present(1, None), births := s.births + [s.now],
         log := s.log + [Stamp(s.now, |s.births| + 1, 1, p, mount)])
    case Present(count, deadline) =>
      s.(key := Present(count + 1, deadline), log := s.log + [Stamp(s.now, |s.births|, count + 1, p, mount)])
  }

  function SetDeadline(cfg: Config, s: Stores, onlyIfNone: bool): Stores {
    match Current(s)
    case Absent => s
    case Present(count, deadline) =>
      if onlyIfNone && deadline.Some? then s else s.(key := Present(count, Some(s.now + cfg.window)))
  }

  function TimeToLive(s: Stores): int {
    match Current(s)
    case Absent => -2
    case Present(_, None) => -1
    case Present(_, Some(deadline)) => deadline - s.now
  }

  /** `next()`: on to the second limiter call, or to the handler. */
  function Admit(call: Call, counted: Option<Stamp>): Phase {
    if call.mount == 1 && call.api then Incrementing(Call(2, true, counted))
    else if call.mount == 1 then Handled(counted, None)
    else Handled(call.first, counted)
  }

  function Decide(cfg: Config, call: Call, stamp: Stamp): Phase {
    if stamp.count > cfg.max then Blocked(stamp) else Admit(call, Some(stamp))
  }

  function Step(cfg: Config, s: Stores, p: nat, ph: Phase, reply: Reply): Move {
    match ph
    case Incrementing(call) =>
      var t := Increment(s, p, call.mount);
      if reply.Done? then Move(t, Expiring(call, Some(t.log[|s.log|])))
      else Move(if reply.applied then t else s, Expiring(call, None))
    case Expiring(call, got) =>
      Move(if reply.Done? || reply.applied then SetDeadline(cfg, s, true) else s, Timing(call, got))
    case Timing(call, got) =>
      Move(s, Replying(call, got, if reply.Done? then Some(TimeToLive(s)) else None))
    case Replying(call, got, ttl) =>
      Move(s, if reply.Fault? || got.None? then Admit(call, None)
              else if ttl == Some(-1) then FallingBack(call, got)
              else Decide(cfg, call, got.value))
    case FallingBack(call, got) =>
      Move(if reply.Done? || reply.applied then SetDeadline(cfg, s, false) else s,
           if reply.Fault? || got.None? then Admit(call, None) else Decide(cfg, call, got.value))
    case _ => Move(s, ph)
  }

  function Next(cfg: Config, s: State, a: Action): State {
    match a
    case Arrive(api) => s.(procs := s.procs + [Incrementing(Call(1, api, None))])
    case Advance(p, reply) =>
      if p < |s.procs| then
        var m := Step(cfg, s.stores, p, s.procs[p], reply);
        State(m.stores, s.procs[p := m.phase])
      else s
    case Pass(seconds) => s.(stores := s.stores.(now := s.stores.now + seconds))
  }

  function Run(cfg: Config, s: State, acts: seq<Action>): State {
    if acts == [] then s else Next(cfg, Run(cfg, s, acts[..|acts| - 1]), acts[|acts| - 1])
  }

  lemma RunSnoc(cfg: Config, s: State, acts: seq<Action>, a: Action)
    ensures Run(cfg, s, acts + [a]) == Next(cfg, Run(cfg, s, acts), a)
  {
    assert (acts + [a])[..|acts|] == acts;
  }
}

/** The quotas the limiter keeps, over every run. */
module RateLimiterQuotas {
  import opened Environment
  import opened RateLimiterMachine

  /******* The counter *******/

  /** Each count is one more than the last, or a new lifetime starts at one. */
  ghost predicate Counted(log: seq<Stamp>) {
    && (log != [] ==> log[0].epoch == 1 && log[0].count == 1)
    && (forall i :: 0 < i < |log| ==>
          (log[i].epoch == log[i - 1].epoch && log[i].count == log[i - 1].count + 1)
          || (log[i].epoch == log[i - 1].epoch + 1 && log[i].count == 1))
  }

  /** Lifetimes do not overlap, and each lasts at least a window. */
  ghost predicate Lifetimes(cfg: Config, s: Stores) {
    && (forall k :: 0 <= k < |s.births| ==> s.births[k] <= s.now)
    && (forall k :: 0 <= k < |s.births| - 1 ==> s.births[k] + cfg.window <= s.births[k + 1])
    && (forall i :: 0 <= i < |s.log| ==>
          && 1 <= s.log[i].epoch <= |s.births|
          && s.births[s.log[i].epoch - 1] <= s.log[i].at <= s.now
          && (s.log[i].epoch < |s.births| ==> s.log[i].at < s.births[s.log[i].epoch]))
  }

  /** The key is the last stamp's; its deadline, once set, is a window or more past its birth
      and after every count it gave. */
  ghost predicate KeyOk(cfg: Config, s: Stores) {
    && (s.log == [] <==> s.births == []) && (s.key.Absent? <==> s.log == [])
    && (s.log != [] ==> s.log[|s.log| - 1].epoch == |s.births|)
    && (s.key.Present? ==> s.log != [] && s.key.count == s.log[|s.log| - 1].count)
    && (s.key.Present? && s.key.deadline.Some? ==>
          && s.births[|s.births| - 1] + cfg.window <= s.key.deadline.value <= s.now + cfg.window
          && forall i :: 0 <= i < |s.log| && s.log[i].epoch == |s.births| ==> s.log[i].at < s.key.deadline.value)
  }

  ghost predicate CounterOk(cfg: Config, s: Stores) {
    Counted(s.log) && Lifetimes(cfg, s) && KeyOk(cfg, s)
  }

  /** The stamp an INCR enters. */
  function NextStamp(s: Stores, p: nat, mount: nat): Stamp {
    match Current(s)
    case Absent => Stamp(s.now, |s.births| + 1, 1, p, mount)
    case Present(count, _) => Stamp(s.now, |s.births|, count + 1, p, mount)
  }

  lemma IncrementStamps(cfg: Config, s: Stores, p: nat, mount: nat)
    requires Counted(s.log) && KeyOk(cfg, s)
    ensures var t := Increment(s, p, mount);
            t.log == s.log + [NextStamp(s, p, mount)] && Counted(t.log)
            && t.births == (if Current(s).Absent? then s.births + [s.now] else s.births) && t.now == s.now
  {
    var t := Increment(s, p, mount);
    assert forall i :: 0 <= i < |s.log| ==> t.log[i] == s.log[i];
  }

  lemma IncrementLifetimes(cfg: Config, s: Stores, p: nat, mount: nat)
    requires CounterOk(cfg, s)
    ensures Lifetimes(cfg, Increment(s, p, mount))
  {
    hide Counted, Increment;
    IncrementStamps(cfg, s, p, mount);
    var t := Increment(s, p, mount);
    assert forall i :: 0 <= i < |s.log| ==> t.log[i] == s.log[i];
    assert forall k :: 0 <= k < |s.births| ==> t.births[k] == s.births[k];
  }

  lemma IncrementKey(cfg: Config, s: Stores, p: nat, mount: nat)
    requires CounterOk(cfg, s)
    ensures KeyOk(cfg, Increment(s, p, mount))
  {
    hide Counted, Lifetimes;
  }

  lemma IncrementOk(cfg: Config, s: Stores, p: nat, mount: nat)
    requires CounterOk(cfg, s)
    ensures CounterOk(cfg, Increment(s, p, mount))
    ensures Increment(s, p, mount).log == s.log + [NextStamp(s, p, mount)]
    ensures Increment(s, p, mount).log[|s.log|].p == p && Increment(s, p, mount).log[|s.log|].mount == mount
  {
    hide Counted, Lifetimes, KeyOk, Increment;
    IncrementStamps(cfg, s, p, mount);
    IncrementLifetimes(cfg, s, p, mount);
    IncrementKey(cfg, s, p, mount);
  }

  lemma SetDeadlineOk(cfg: Config, s: Stores, onlyIfNone: bool)
    requires CounterOk(cfg, s) && cfg.window > 0
    ensures CounterOk(cfg, SetDeadline(cfg, s, onlyIfNone)) && SetDeadline(cfg, s, onlyIfNone).log == s.log
  {
  }

  lemma StepCounter(cfg: Config, s: Stores, p: nat, ph: Phase, reply: Reply)
    requires CounterOk(cfg, s) && cfg.window > 0
    ensures CounterOk(cfg, Step(cfg, s, p, ph, reply).stores)
    ensures var t := Step(cfg, s, p, ph, reply).stores;
            t.log == s.log || (ph.Incrementing? && |t.log| == |s.log| + 1 && t.log[..|s.log|] == s.log
                               && t.log[|s.log|].p == p && t.log[|s.log|].mount == ph.call.mount)
  {
    hide CounterOk, Increment, SetDeadline;
    match ph
    case Incrementing(call) =>
      IncrementOk(cfg, s, p, call.mount);
    case Expiring(_, _) => SetDeadlineOk(cfg, s, true);
    case FallingBack(_, _) => SetDeadlineOk(cfg, s, false);
    case _ =>
  }

  /******* The requests *******/

  ghost predicate Logged(log: seq<Stamp>, stamp: Stamp, p: nat, mount: nat) {
    stamp in log && stamp.p == p && stamp.mount == mount
  }

  ghost predicate Unlogged(log: seq<Stamp>, p: nat, mount: nat) {
    forall i :: 0 <= i < |log| ==> !(log[i].p == p && log[i].mount == mount)
  }

  ghost predicate CallOk(cfg: Config, log: seq<Stamp>, p: nat, call: Call) {
    && (call.mount == 1 || call.mount == 2)
    && (call.mount == 1 ==> Unlogged(log, p, 2) && call.first.None?)
    && (call.first.Some? ==> Logged(log, call.first.value, p, 1) && call.first.value.count <= cfg.max)
  }

  /** The stamps a request holds are its own, from the log, and within the quota if passed. */
  ghost predicate RequestOk(cfg: Config, log: seq<Stamp>, p: nat, ph: Phase) {
    match ph
    case Incrementing(call) => CallOk(cfg, log, p, call) && Unlogged(log, p, call.mount)
    case Expiring(call, got) => CallOk(cfg, log, p, call) && (got.Some? ==> Logged(log, got.value, p, call.mount))
    case Timing(call, got) => CallOk(cfg, log, p, call) && (got.Some? ==> Logged(log, got.value, p, call.mount))
    case Replying(call, got, _) => CallOk(cfg, log, p, call) && (got.Some? ==> Logged(log, got.value, p, call.mount))
    case FallingBack(call, got) => CallOk(cfg, log, p, call) && (got.Some? ==> Logged(log, got.value, p, call.mount))
    case Handled(first, second) =>
      && (first.Some? ==> Logged(log, first.value, p, 1) && first.value.count <= cfg.max)
      && (second.Some? ==> Logged(log, second.value, p, 2) && second.value.count <= cfg.max)
    case Blocked(stamp) => stamp in log && stamp.p == p && stamp.count > cfg.max
  }

  /** Each limiter call increments at most once. */
  ghost predicate Tagged(s: State) {
    && (forall i :: 0 <= i < |s.stores.log| ==> s.stores.log[i].p < |s.procs|)
    && (forall i, j :: 0 <= i < j < |s.stores.log| ==>
          s.stores.log[i].p != s.stores.log[j].p || s.stores.log[i].mount != s.stores.log[j].mount)
  }

  ghost predicate Inv(cfg: Config, s: State) {
    && CounterOk(cfg, s.stores) && Tagged(s)
    && forall p :: 0 <= p < |s.procs| ==> RequestOk(cfg, s.stores.log, p, s.procs[p])
  }

  lemma StepRequest(cfg: Config, s: Stores, p: nat, ph: Phase, reply: Reply)
    requires CounterOk(cfg, s) && cfg.window > 0 && RequestOk(cfg, s.log, p, ph)
    ensures var m := Step(cfg, s, p, ph, reply);
            RequestOk(cfg, m.stores.log, p, m.phase)
  {
    hide CounterOk, Increment, SetDeadline;
    StepCounter(cfg, s, p, ph, reply);
    if ph.Incrementing? {
      var t := Increment(s, p, ph.call.mount);
      IncrementOk(cfg, s, p, ph.call.mount);
      assert forall stamp :: stamp in s.log ==> stamp in t.log;
      assert t.log[|s.log|] in t.log;
    } else {
      SetDeadlineOk(cfg, s, true);
      SetDeadlineOk(cfg, s, false);
    }
  }

  lemma OtherRequestKept(cfg: Config, log: seq<Stamp>, stamp: Stamp, q: nat, ph: Phase)
    requires RequestOk(cfg, log, q, ph) && stamp.p != q
    ensures RequestOk(cfg, log + [stamp], q, ph)
  {
  }

  lemma AdvanceKeepsInv(cfg: Config, s: State, p: nat, reply: Reply)
    requires Inv(cfg, s) && cfg.window > 0 && p < |s.procs|
    ensures Inv(cfg, Next(cfg, s, Advance(p, reply)))
  {
    hide CounterOk, Step, RequestOk;
    var ph, m := s.procs[p], Step(cfg, s.stores, p, s.procs[p], reply);
    StepCounter(cfg, s.stores, p, ph, reply);
    StepRequest(cfg, s.stores, p, ph, reply);
    if m.stores.log != s.stores.log {
      var stamp := m.stores.log[|s.stores.log|];
      assert m.stores.log == s.stores.log + [stamp];
      forall q | 0 <= q < |s.procs| && q != p
        ensures RequestOk(cfg, m.stores.log, q, s.procs[q])
      {
        OtherRequestKept(cfg, s.stores.log, stamp, q, s.procs[q]);
      }
      UnloggedBefore(cfg, s.stores.log, p, ph);
    }
  }

  lemma UnloggedBefore(cfg: Config, log: seq<Stamp>, p: nat, ph: Phase)
    requires ph.Incrementing? && RequestOk(cfg, log, p, ph)
    ensures Unlogged(log, p, ph.call.mount)
  {
  }

  lemma PassKeepsCounter(cfg: Config, s: Stores, seconds: nat)
    requires CounterOk(cfg, s)
    ensures CounterOk(cfg, s.(now := s.now + seconds))
  {
  }

  lemma NewRequestOk(cfg: Config, s: State, api: bool)
    requires Tagged(s)
    ensures RequestOk(cfg, s.stores.log, |s.procs|, Incrementing(Call(1, api, None)))
  {
  }

  lemma NextKeepsInv(cfg: Config, s: State, a: Action)
    requires Inv(cfg, s) && cfg.window > 0
    ensures Inv(cfg, Next(cfg, s, a))
  {
    hide CounterOk, Step, RequestOk;
    match a
    case Arrive(api) => NewRequestOk(cfg, s, api);
    case Advance(p, reply) =>
      if p < |s.procs| {
        AdvanceKeepsInv(cfg, s, p, reply);
      }
    case Pass(seconds) => PassKeepsCounter(cfg, s.stores, seconds);
  }

  lemma {:induction false} Reachable(cfg: Config, now: int, acts: seq<Action>)
    requires cfg.window > 0
    ensures Inv(cfg, Run(cfg, Init(now), acts))
  {
    if acts != [] {
      hide Inv, Next;
      Reachable(cfg, now, acts[..|acts| - 1]);
      NextKeepsInv(cfg, Run(cfg, Init(now), acts[..|acts| - 1]), acts[|acts| - 1]);
    }
  }

  /******* One lifetime *******/

  /** How many counts a lifetime has handed out, and how many of them are within the quota. */
  function Given(log: seq<Stamp>, epoch: nat): nat {
    if log == [] then 0
    else Given(log[..|log| - 1], epoch) + if log[|log| - 1].epoch == epoch then 1 else 0
  }

  function Passing(cfg: Config, log: seq<Stamp>, epoch: nat): nat {
    if log == [] then 0
    else
      var last := log[|log| - 1];
      Passing(cfg, log[..|log| - 1], epoch) + if last.epoch == epoch && last.count <= cfg.max then 1 else 0
  }

  lemma EpochsAscend(log: seq<Stamp>, i: nat, j: nat)
    requires Counted(log) && i <= j < |log|
    ensures log[i].epoch <= log[j].epoch
    decreases j
  {
    if i < j {
      EpochsAscend(log, i, j - 1);
    }
  }

  /** Within a lifetime the counts are 1, 2, 3, ... without gap or repeat: the stamp that is
      the n-th of its lifetime carries n, and exactly min(n, MAX) of the first n pass. */
  lemma {:induction false} CountsAreGapless(cfg: Config, log: seq<Stamp>)
    requires Counted(log)
    ensures log != [] ==> Given(log, log[|log| - 1].epoch) == log[|log| - 1].count
    ensures forall e :: log != [] && e > log[|log| - 1].epoch ==> Given(log, e) == 0
    ensures forall e :: Passing(cfg, log, e) == Min(Given(log, e), cfg.max)
  {
    if log != [] {
      var front, last := log[..|log| - 1], log[|log| - 1];
      CountsAreGapless(cfg, front);
      if front != [] {
        assert front[|front| - 1] == log[|log| - 2];
      }
      assert Given(front, last.epoch) == last.count - 1;
      assert Passing(cfg, front, last.epoch) == Min(last.count - 1, cfg.max);
    }
  }

  /** In every reachable state each lifetime has admitted exactly min(n, MAX) of its n counts. */
  lemma QuotaPerLifetime(cfg: Config, now: int, acts: seq<Action>, epoch: nat)
    requires cfg.window > 0
    ensures var log := Run(cfg, Init(now), acts).stores.log;
            Passing(cfg, log, epoch) == Min(Given(log, epoch), cfg.max)
  {
    Reachable(cfg, now, acts);
    CountsAreGapless(cfg, Run(cfg, Init(now), acts).stores.log);
  }

  /******* Any interval *******/

  function PassingIn(cfg: Config, log: seq<Stamp>, from: int, to: int): nat {
    if log == [] then 0
    else
      var last := log[|log| - 1];
      PassingIn(cfg, log[..|log| - 1], from, to) + if from <= last.at <= to && last.count <= cfg.max then 1 else 0
  }

  lemma BirthsApart(cfg: Config, s: Stores, e: nat, f: nat)
    requires Lifetimes(cfg, s) && e < f < |s.births|
    ensures s.births[e] + cfg.window <= s.births[f]
    decreases f
  {
    if e < f - 1 {
      BirthsApart(cfg, s, e, f - 1);
    }
  }

  /** Two counts at most a window apart come from the same or from neighbouring lifetimes. */
  lemma NeighbouringLifetimes(cfg: Config, s: Stores, i: nat, j: nat)
    requires CounterOk(cfg, s) && i < |s.log| && j < |s.log| && s.log[j].at <= s.log[i].at + cfg.window
    ensures s.log[j].epoch <= s.log[i].epoch + 1
  {
    var e, f := s.log[i].epoch, s.log[j].epoch;
    if e < |s.births| {
      assert s.log[i].at < s.births[e];
    }
    if f > e + 1 {
      BirthsApart(cfg, s, e, f - 1);
      assert false;
    }
  }

  lemma {:induction false} PassingInTwo(cfg: Config, log: seq<Stamp>, from: int, to: int, e: nat)
    requires forall i :: 0 <= i < |log| && from <= log[i].at <= to ==> log[i].epoch == e || log[i].epoch == e + 1
    ensures PassingIn(cfg, log, from, to) <= Passing(cfg, log, e) + Passing(cfg, log, e + 1)
  {
    if log != [] {
      PassingInTwo(cfg, log[..|log| - 1], from, to, e);
    }
  }

  /** In any interval of one window length, wherever it starts, at most 2 * MAX counted calls pass. */
  lemma QuotaPerInterval(cfg: Config, now: int, acts: seq<Action>, from: int)
    requires cfg.window > 0
    ensures PassingIn(cfg, Run(cfg, Init(now), acts).stores.log, from, from + cfg.window) <= 2 * cfg.max
  {
    hide CounterOk, Passing, PassingIn;
    Reachable(cfg, now, acts);
    var s := Run(cfg, Init(now), acts).stores;
    var e := EarliestLifetime(cfg, s, from);
    PassingInTwo(cfg, s.log, from, from + cfg.window, e);
    QuotaPerLifetime(cfg, now, acts, e);
    QuotaPerLifetime(cfg, now, acts, e + 1);
  }

  lemma EarliestLifetime(cfg: Config, s: Stores, from: int) returns (e: nat)
    requires CounterOk(cfg, s)
    ensures forall i :: 0 <= i < |s.log| && from <= s.log[i].at <= from + cfg.window ==>
              s.log[i].epoch == e || s.log[i].epoch == e + 1
  {
    hide CounterOk;
    if i: nat :| i < |s.log| && from <= s.log[i].at <= from + cfg.window {
      var first := EarliestFrom(s.log, from, from + cfg.window, i);
      e := s.log[first].epoch;
      forall j | 0 <= j < |s.log| && from <= s.log[j].at <= from + cfg.window
        ensures s.log[j].epoch == e || s.log[j].epoch == e + 1
      {
        NeighbouringLifetimes(cfg, s, first, j);
      }
    } else {
      e := 0;
    }
  }

  lemma EarliestFrom(log: seq<Stamp>, from: int, to: int, i: nat) returns (first: nat)
    requires i < |log| && from <= log[i].at <= to
    ensures first < |log| && from <= log[first].at <= to
    ensures forall j :: 0 <= j < |log| && from <= log[j].at <= to ==> log[first].epoch <= log[j].epoch
  {
    first := i;
    for k := 0 to |log|
      invariant first < |log| && from <= log[first].at <= to
      invariant forall j :: 0 <= j < k && from <= log[j].at <= to ==> log[first].epoch <= log[j].epoch
    {
      if from <= log[k].at <= to && log[k].epoch < log[first].epoch {
        first := k;
      }
    }
  }

  /******* Two limiter calls a request *******/

  /** Request p has reached its handler on two counts of one lifetime. */
  ghost predicate DoublyCounted(s: State, p: nat, epoch: nat) {
    && p < |s.procs| && s.procs[p].Handled?
    && s.procs[p].first.Some? && s.procs[p].first.value.epoch == epoch
    && s.procs[p].second.Some? && s.procs[p].second.value.epoch == epoch
  }

  /** Count n of a lifetime belongs to one stamp. */
  lemma CountIdentifies(log: seq<Stamp>, i: nat, j: nat)
    requires Counted(log) && i <= j < |log| && log[i].epoch == log[j].epoch && log[i].count == log[j].count
    ensures i == j
  {
    CountsAscend(log, i, j);
  }

  lemma CountsAscend(log: seq<Stamp>, i: nat, j: nat)
    requires Counted(log) && i <= j < |log| && log[i].epoch == log[j].epoch
    ensures log[i].count + (j - i) == log[j].count
    decreases j
  {
    if i < j {
      EpochsAscend(log, i, j - 1);
      EpochsAscend(log, j - 1, j);
      CountsAscend(log, i, j - 1);
    }
  }

  /** The two counts request p was let through on. */
  ghost function PairOf(s: State, p: nat, epoch: nat): (nat, nat)
    requires DoublyCounted(s, p, epoch)
  {
    (s.procs[p].first.value.count, s.procs[p].second.value.count)
  }

  /** The counts of a lifetime that a set of requests used up. */
  ghost function Used(s: State, requests: set<nat>, epoch: nat): set<nat>
    requires forall p :: p in requests ==> DoublyCounted(s, p, epoch)
  {
    (set p | p in requests :: PairOf(s, p, epoch).0) + (set p | p in requests :: PairOf(s, p, epoch).1)
  }

  lemma SameStamp(cfg: Config, s: State, a: Stamp, b: Stamp)
    requires Inv(cfg, s) && a in s.stores.log && b in s.stores.log && a.epoch == b.epoch && a.count == b.count
    ensures a == b
  {
    hide Lifetimes, KeyOk, RequestOk;
    var log := s.stores.log;
    var i: nat :| i < |log| && log[i] == a;
    var j: nat :| j < |log| && log[j] == b;
    if i <= j {
      CountIdentifies(log, i, j);
    } else {
      CountIdentifies(log, j, i);
    }
  }

  /** One more doubly counted request uses two counts no other used. */
  lemma UsesFreshPair(cfg: Config, s: State, others: set<nat>, p: nat, epoch: nat)
    requires Inv(cfg, s) && DoublyCounted(s, p, epoch) && p !in others
    requires forall q :: q in others ==> DoublyCounted(s, q, epoch)
    ensures s.procs[p].first.value.count !in Used(s, others, epoch)
    ensures s.procs[p].second.value.count !in Used(s, others, epoch)
    ensures s.procs[p].first.value.count != s.procs[p].second.value.count
  {
    hide CounterOk, Tagged;
    var a, b := s.procs[p].first.value, s.procs[p].second.value;
    assert RequestOk(cfg, s.stores.log, p, s.procs[p]);
    if a.count == b.count {
      SameStamp(cfg, s, a, b);
    }
    forall q | q in others
      ensures s.procs[q].first.value.count !in {a.count, b.count}
      ensures s.procs[q].second.value.count !in {a.count, b.count}
    {
      hide Inv;
      DistinctCounts(cfg, s, p, q, epoch);
    }
  }

  lemma {:induction false} UsedTwice(cfg: Config, s: State, requests: set<nat>, epoch: nat)
    requires Inv(cfg, s) && forall p :: p in requests ==> DoublyCounted(s, p, epoch)
    ensures |Used(s, requests, epoch)| == 2 * |requests|
  {
    hide Inv, DoublyCounted;
    if requests == {} {
      assert Used(s, requests, epoch) == {};
    } else {
      var p :| p in requests;
      var others := requests - {p};
      UsedTwice(cfg, s, others, epoch);
      assert DoublyCounted(s, p, epoch);
      UsedGrows(s, requests, p, epoch);
      UsesFreshPair(cfg, s, others, p, epoch);
      var pair := {PairOf(s, p, epoch).0, PairOf(s, p, epoch).1};
      DisjointUnion(Used(s, others, epoch), pair);
      assert |pair| == 2;
    }
  }

  lemma UsedGrows(s: State, requests: set<nat>, p: nat, epoch: nat)
    requires p in requests && forall q :: q in requests ==> DoublyCounted(s, q, epoch)
    ensures Used(s, requests, epoch) ==
            Used(s, requests - {p}, epoch) + {PairOf(s, p, epoch).0, PairOf(s, p, epoch).1}
  {
    var others := requests - {p};
    assert requests == others + {p};
  }

  lemma DisjointUnion(a: set<nat>, b: set<nat>)
    requires a !! b
    ensures |a + b| == |a| + |b|
  {
  }

  lemma DistinctCounts(cfg: Config, s: State, p: nat, q: nat, epoch: nat)
    requires Inv(cfg, s) && p != q && DoublyCounted(s, p, epoch) && DoublyCounted(s, q, epoch)
    ensures s.procs[q].first.value.count != s.procs[p].first.value.count
    ensures s.procs[q].first.value.count != s.procs[p].second.value.count
    ensures s.procs[q].second.value.count != s.procs[p].first.value.count
    ensures s.procs[q].second.value.count != s.procs[p].second.value.count
  {
    hide CounterOk, Tagged;
    assert RequestOk(cfg, s.stores.log, p, s.procs[p]) && RequestOk(cfg, s.stores.log, q, s.procs[q]);
    var a, b, c, d := s.procs[p].first.value, s.procs[p].second.value, s.procs[q].first.value, s.procs[q].second.value;
    if a.count == c.count { SameStamp(cfg, s, a, c); }
    if b.count == c.count { SameStamp(cfg, s, b, c); }
    if a.count == d.count { SameStamp(cfg, s, a, d); }
    if b.count == d.count { SameStamp(cfg, s, b, d); }
  }

  /** Mounted twice, the limiter lets at most floor(MAX / 2) requests through to a handler on
      two counts of one lifetime of the key. */
  lemma DoubleMountHalvesQuota(cfg: Config, now: int, acts: seq<Action>, requests: set<nat>, epoch: nat)
    requires cfg.window > 0
    requires forall p :: p in requests ==> DoublyCounted(Run(cfg, Init(now), acts), p, epoch)
    ensures |requests| <= cfg.max / 2
  {
    hide CounterOk, Tagged;
    Reachable(cfg, now, acts);
    var s := Run(cfg, Init(now), acts);
    UsedTwice(cfg, s, requests, epoch);
    forall n | n in Used(s, requests, epoch)
      ensures 1 <= n <= cfg.max
    {
      var p :| p in requests && (s.procs[p].first.value.count == n || s.procs[p].second.value.count == n);
      assert DoublyCounted(s, p, epoch);
      assert RequestOk(cfg, s.stores.log, p, s.procs[p]);
      CountsPositive(cfg, s, s.procs[p].first.value);
      CountsPositive(cfg, s, s.procs[p].second.value);
    }
    BoundedSet(Used(s, requests, epoch), cfg.max);
  }

  lemma {:induction false} CountsFromOne(log: seq<Stamp>, i: nat)
    requires Counted(log) && i < |log|
    ensures log[i].count >= 1
  {
    if i > 0 {
      CountsFromOne(log, i - 1);
    }
  }

  lemma CountsPositive(cfg: Config, s: State, stamp: Stamp)
    requires Inv(cfg, s) && stamp in s.stores.log
    ensures stamp.count >= 1
  {
    var i: nat :| i < |s.stores.log| && s.stores.log[i] == stamp;
    CountsFromOne(s.stores.log, i);
  }

  lemma {:induction false} BoundedSet(s: set<nat>, n: nat)
    requires forall x :: x in s ==> 1 <= x <= n
    ensures |s| <= n
  {
    if n == 0 {
      assert s == {};
    } else {
      BoundedSet(s - {n}, n - 1);
    }
  }
}
