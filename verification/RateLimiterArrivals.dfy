/**
 The limiter as the requests meet it: which limiter calls a request passes is decided by how it
 arrived, and each call counts it, as long as its own commands are answered.
 (src/bootstrap/main/server.ts:47, src/routes/shortener.ts:27,57, src/middleware/rate_limiter/index.ts:25-75)
 */
module RateLimiterArrivals {
  import opened Environment
  import opened RateLimiterMachine
  import opened RateLimiterQuotas

  /** For each request, in order of arrival, whether it goes to an API route. */
  function Arrivals(acts: seq<Action>): seq<bool> {
    if acts == [] then []
    else
      var last := acts[|acts| - 1];
      Arrivals(acts[..|acts| - 1]) + if last.Arrive? then [last.api] else []
  }

  /** Every command of request p is answered. The others may fail as they like. */
  predicate Answered(acts: seq<Action>, p: nat) {
    forall i :: 0 <= i < |acts| && acts[i].Advance? && acts[i].p == p ==> acts[i].reply.Done?
  }

  /** A request whose commands are answered: counted in each call it has passed, with a second
      call exactly for an API route. */
  predicate Counting(ph: Phase, api: bool) {
    match ph
    case Incrementing(call) => CallCounted(call, api)
    case Expiring(call, got) => CallCounted(call, api) && got.Some?
    case Timing(call, got) => CallCounted(call, api) && got.Some?
    case Replying(call, got, ttl) => CallCounted(call, api) && got.Some? && ttl.Some?
    case FallingBack(call, got) => CallCounted(call, api) && got.Some?
    case Handled(first, second) => first.Some? && (second.Some? <==> api)
    case Blocked(_) => true
  }

  predicate CallCounted(call: Call, api: bool) {
    call.api == api && (call.mount == 1 || (call.mount == 2 && api && call.first.Some?))
  }

  lemma StepCounting(cfg: Config, s: Stores, p: nat, ph: Phase, api: bool)
    requires Counting(ph, api)
    ensures Counting(Step(cfg, s, p, ph, Done).phase, api)
  {
    hide Increment, SetDeadline, TimeToLive;
  }

  lemma {:induction false} OneEach(cfg: Config, now: int, acts: seq<Action>)
    ensures |Run(cfg, Init(now), acts).procs| == |Arrivals(acts)|
  {
    if acts != [] {
      hide Step;
      OneEach(cfg, now, acts[..|acts| - 1]);
    }
  }

  lemma {:induction false} RequestCounting(cfg: Config, now: int, acts: seq<Action>, p: nat)
    requires p < |Arrivals(acts)| && Answered(acts, p)
    ensures p < |Run(cfg, Init(now), acts).procs|
    ensures Counting(Run(cfg, Init(now), acts).procs[p], Arrivals(acts)[p])
  {
    hide Step, Counting;
    OneEach(cfg, now, acts);
    var n := |acts| - 1;
    var s, a := Run(cfg, Init(now), acts[..n]), acts[n];
    OneEach(cfg, now, acts[..n]);
    if p < |Arrivals(acts[..n])| {
      assert Answered(acts[..n], p);
      RequestCounting(cfg, now, acts[..n], p);
      if a.Advance? && a.p == p {
        StepCounting(cfg, s.stores, p, s.procs[p], Arrivals(acts[..n])[p]);
      }
    } else {
      Newcomer(a.api);
    }
  }

  lemma Newcomer(api: bool)
    ensures Counting(Incrementing(Call(1, api, None)), api)
  {
  }

  /** In every run: a request whose commands were all answered and that has reached its handler
      has been counted once, and a second time exactly when it goes to an API route. */
  lemma CountedAsMounted(cfg: Config, now: int, acts: seq<Action>, p: nat)
    requires p < |Arrivals(acts)| && Answered(acts, p)
    ensures var procs := Run(cfg, Init(now), acts).procs;
            && p < |procs|
            && (procs[p].Handled? ==> procs[p].first.Some? && (procs[p].second.Some? <==> Arrivals(acts)[p]))
  {
    hide Run;
    RequestCounting(cfg, now, acts, p);
  }

  /** All counts that have let a request through belong to one lifetime of the key. */
  predicate WithinLifetime(ph: Phase, epoch: nat) {
    ph.Handled? && (ph.first.Some? ==> ph.first.value.epoch == epoch)
    && (ph.second.Some? ==> ph.second.value.epoch == epoch)
  }

  /** So of the requests that arrive for an API route and are answered, at most floor(MAX / 2)
      reach their handler within one lifetime of the key, in any interleaving, whatever fails
      for others. */
  lemma ApiQuota(cfg: Config, now: int, acts: seq<Action>, requests: set<nat>, epoch: nat)
    requires cfg.window > 0
    requires forall p :: p in requests ==> p < |Arrivals(acts)| && Arrivals(acts)[p] && Answered(acts, p)
    requires forall p :: p in requests ==>
               p < |Run(cfg, Init(now), acts).procs| && WithinLifetime(Run(cfg, Init(now), acts).procs[p], epoch)
    ensures |requests| <= cfg.max / 2
  {
    hide Run, Answered;
    forall p | p in requests
      ensures DoublyCounted(Run(cfg, Init(now), acts), p, epoch)
    {
      CountedAsMounted(cfg, now, acts, p);
    }
    DoubleMountHalvesQuota(cfg, now, acts, requests, epoch);
  }

  /******* One command at a time *******/

  /** A command that fails leaves the key as a successful one does if it was carried out, and as
      it was if not. */
  lemma FaultsExactly(cfg: Config, s: Stores, p: nat, ph: Phase, code: string)
    ensures Step(cfg, s, p, ph, Fault(true, code)).stores == Step(cfg, s, p, ph, Done).stores
    ensures Step(cfg, s, p, ph, Fault(false, code)).stores == s
  {
    hide Increment, SetDeadline;
  }

  /** One API request alone, all commands answered. */
  function OneApiRun(): seq<Action> {
    [Arrive(true), Advance(0, Done), Advance(0, Done), Advance(0, Done), Advance(0, Done),
     Advance(0, Done), Advance(0, Done), Advance(0, Done), Advance(0, Done)]
  }

  /** It reaches its handler on the first two counts of the first lifetime. */
  lemma OneApiRequest(cfg: Config, now: int)
    requires cfg.window > 0 && cfg.max >= 2
    ensures var s := Run(cfg, Init(now), OneApiRun());
            && Arrivals(OneApiRun()) == [true] && Answered(OneApiRun(), 0)
            && s.procs == [Handled(Some(Stamp(now, 1, 1, 0, 1)), Some(Stamp(now, 1, 2, 0, 2)))]
            && WithinLifetime(s.procs[0], 1)
  {
    var acts, s0 := OneApiRun(), Init(now);
    FirstCall(cfg, now, acts[..5]);
    SecondCall(cfg, Run(cfg, s0, acts[..5]), now);
    NineSteps(cfg, s0, acts);
    ArrivesOnce(acts, 9);
  }

  lemma FirstCall(cfg: Config, now: int, acts: seq<Action>)
    requires cfg.window > 0 && cfg.max >= 2 && acts == OneApiRun()[..5]
    ensures var s := Run(cfg, Init(now), acts);
            && s.procs == [Incrementing(Call(2, true, Some(Stamp(now, 1, 1, 0, 1))))]
            && s.stores.now == now && s.stores.key == Present(1, Some(now + cfg.window)) && |s.stores.births| == 1
  {
    hide Run;
    var s0, done := Init(now), Advance(0, Done);
    var s1 := Next(cfg, s0, Arrive(true));
    var s2 := Next(cfg, s1, done);
    var s3 := Next(cfg, s2, done);
    var s4 := Next(cfg, s3, done);
    var s5 := Next(cfg, s4, done);
    assert s2.stores.key == Present(1, None);
    assert s2.procs == [Expiring(Call(1, true, None), Some(Stamp(now, 1, 1, 0, 1)))];
    FiveSteps(cfg, s0, acts);
  }

  lemma SecondCall(cfg: Config, s: State, now: int)
    requires cfg.window > 0 && cfg.max >= 2 && s.stores.now == now && |s.stores.births| == 1
    requires s.procs == [Incrementing(Call(2, true, Some(Stamp(now, 1, 1, 0, 1))))]
    requires s.stores.key == Present(1, Some(now + cfg.window))
    ensures var done := Advance(0, Done);
            Next(cfg, Next(cfg, Next(cfg, Next(cfg, s, done), done), done), done).procs
            == [Handled(Some(Stamp(now, 1, 1, 0, 1)), Some(Stamp(now, 1, 2, 0, 2)))]
  {
  }

  lemma FiveSteps(cfg: Config, s: State, acts: seq<Action>)
    requires |acts| == 5
    ensures Run(cfg, s, acts)
         == Next(cfg, Next(cfg, Next(cfg, Next(cfg, Next(cfg, s, acts[0]), acts[1]), acts[2]), acts[3]), acts[4])
  {
    hide Next;
    assert acts[..1] == [acts[0]] && [acts[0]][..0] == [] && [] + [acts[0]] == acts[..1];
    assert acts[..2] == acts[..1] + [acts[1]] && acts[..3] == acts[..2] + [acts[2]];
    assert acts[..4] == acts[..3] + [acts[3]] && acts == acts[..4] + [acts[4]];
    RunSnoc(cfg, s, [], acts[0]);
    RunSnoc(cfg, s, acts[..1], acts[1]);
    RunSnoc(cfg, s, acts[..2], acts[2]);
    RunSnoc(cfg, s, acts[..3], acts[3]);
    RunSnoc(cfg, s, acts[..4], acts[4]);
  }

  lemma NineSteps(cfg: Config, s: State, acts: seq<Action>)
    requires |acts| == 9
    ensures Run(cfg, s, acts)
         == Next(cfg, Next(cfg, Next(cfg, Next(cfg, Run(cfg, s, acts[..5]), acts[5]), acts[6]), acts[7]), acts[8])
  {
    hide Next;
    assert acts[..6] == acts[..5] + [acts[5]] && acts[..7] == acts[..6] + [acts[6]];
    assert acts[..8] == acts[..7] + [acts[7]] && acts == acts[..8] + [acts[8]];
    RunSnoc(cfg, s, acts[..5], acts[5]);
    RunSnoc(cfg, s, acts[..6], acts[6]);
    RunSnoc(cfg, s, acts[..7], acts[7]);
    RunSnoc(cfg, s, acts[..8], acts[8]);
  }

  lemma {:induction false} ArrivesOnce(acts: seq<Action>, n: nat)
    requires 1 <= n <= |acts| && acts[0] == Arrive(true) && forall i :: 1 <= i < n ==> acts[i].Advance?
    ensures Arrivals(acts[..n]) == [true]
    ensures n == |acts| ==> Arrivals(acts) == [true]
    decreases n
  {
    if n > 1 {
      ArrivesOnce(acts, n - 1);
      assert acts[..n][..n - 1] == acts[..n - 1];
    } else {
      assert acts[..1][..0] == [];
    }
    assert acts[..|acts|] == acts;
  }

  /** INCR starts a new lifetime at 1 when there is no key or its deadline has come; otherwise it
      goes on counting the one there is. */
  lemma IncrementExactly(cfg: Config, s: Stores, p: nat, call: Call)
    ensures var m := Step(cfg, s, p, Incrementing(call), Done);
            var ended := s.key.Absent? || (s.key.deadline.Some? && s.key.deadline.value <= s.now);
            var stamp := Stamp(s.now, if ended then |s.births| + 1 else |s.births|,
                               if ended then 1 else s.key.count + 1, p, call.mount);
            && m.phase == Expiring(call, Some(stamp)) && m.stores.log == s.log + [stamp]
            && m.stores.births == (if ended then s.births + [s.now] else s.births)
            && m.stores.key == Present(stamp.count, if ended then None else s.key.deadline)
  {
  }

  /** EXPIRE NX gives a key without a deadline one a window away and leaves any other alone. */
  lemma ExpireExactly(cfg: Config, s: Stores, p: nat, call: Call, got: Option<Stamp>)
    requires s.key.Present? && (s.key.deadline.None? || s.now < s.key.deadline.value)
    ensures Step(cfg, s, p, Expiring(call, got), Done).stores.key
         == Present(s.key.count, Some(if s.key.deadline.Some? then s.key.deadline.value else s.now + cfg.window))
    ensures Step(cfg, s, p, FallingBack(call, got), Done).stores.key
         == Present(s.key.count, Some(s.now + cfg.window))
  {
  }

  /** TTL answers -2 without a key, -1 without a deadline, and otherwise the time left. */
  lemma TtlExactly(s: Stores)
    ensures s.key.Absent? ==> TimeToLive(s) == -2
    ensures s.key.Present? && s.key.deadline.None? ==> TimeToLive(s) == -1
    ensures s.key.Present? && s.key.deadline.Some? ==>
              TimeToLive(s) == if s.key.deadline.value <= s.now then -2 else s.key.deadline.value - s.now
  {
  }

  /** When the EXPIRE NX of a first count never arrives, the limiter notices and sets the
      deadline itself. */
  lemma LostDeadlineRepaired(cfg: Config, s: Stores, p: nat, call: Call, code: string)
    requires s.key.Absent?
    ensures var m1 := Step(cfg, s, p, Incrementing(call), Done);
            var m2 := Step(cfg, m1.stores, p, m1.phase, Fault(false, code));
            var m3 := Step(cfg, m2.stores, p, m2.phase, Done);
            var m4 := Step(cfg, m3.stores, p, m3.phase, Done);
            var m5 := Step(cfg, m4.stores, p, m4.phase, Done);
            m4.phase.FallingBack? && m5.stores.key == Present(1, Some(s.now + cfg.window))
  {
  }

  /** What is bounded over intervals: the number of counts within the quota, by their times. */
  ghost function PassesBetween(cfg: Config, log: seq<Stamp>, from: int, to: int): set<nat> {
    set i: nat | i < |log| && from <= log[i].at <= to && log[i].count <= cfg.max
  }

  lemma {:induction false} PassingInExactly(cfg: Config, log: seq<Stamp>, from: int, to: int)
    ensures PassingIn(cfg, log, from, to) == |PassesBetween(cfg, log, from, to)|
  {
    if log == [] {
      assert PassesBetween(cfg, log, from, to) == {};
    } else {
      var n := |log| - 1;
      var front := PassesBetween(cfg, log[..n], from, to);
      PassingInExactly(cfg, log[..n], from, to);
      assert n !in front;
      assert PassesBetween(cfg, log, from, to)
          == front + if from <= log[n].at <= to && log[n].count <= cfg.max then {n} else {};
    }
  }
}
