/**
 The rate limiter as the middleware runs it: src/middleware/rate_limiter/index.ts:25-75.

 One call sends the commands of one limiter call of `RateLimiterMachine`, among the calls of
 other requests, so the quotas proved over runs hold for what it answers.
 */
module RateLimiters {
  import opened Environment
  import opened RateLimiterMachine
  import opened RateLimiterQuotas

  datatype Headers = Headers(limit: nat, remaining: nat, reset: int)

  datatype Answer = NextHandler | Rejected(status: nat, retryAfter: int)

  /** What the three pipelined commands answered; None is an error reply to that command. */
  datatype Results = Results(count: Option<nat>, ttl: Option<int>)

  /** The actions that process `me` takes part in. */
  predicate Moves(a: Action, me: nat) {
    a.Advance? && a.p == me
  }

  /** A history after a stretch of others' actions, when process `me` is held in place. */
  function Joined(history: seq<Action>, acts: seq<Action>, me: nat): seq<Action> {
    if acts == [] then history
    else
      var last := |acts| - 1;
      var before := Joined(history, acts[..last], me);
      if Moves(acts[last], me) then before else before + [acts[last]]
  }

  /** Nothing is left out but what would move `me`. */
  lemma JoinedExactly(history: seq<Action>, acts: seq<Action>, me: nat, a: Action)
    ensures Joined(history, [], me) == history
    ensures Joined(history, acts + [a], me)
         == (if (a.Advance? && a.p == me)
             then Joined(history, acts, me) else Joined(history, acts, me) + [a])
  {
    assert (acts + [a])[..|acts|] == acts;
  }

  /** A history after one command of `me`, met by the first stretch of the others' schedule. */
  function Extended(history: seq<Action>, others: seq<seq<Action>>, me: nat, reply: Reply): seq<Action> {
    (if others == [] then history else Joined(history, others[0], me)) + [Advance(me, reply)]
  }


  /** Redis and the clock as one process sees them: the state is one that a run reaches, and
      before each command the others take the steps their schedule says. */
  class LimiterWorld {
    const cfg: Config
    const start: int
    var state: State
    ghost var history: seq<Action>
    var replies: seq<Reply>
    var others: seq<seq<Action>>

    ghost predicate Valid()
      reads this
    {
      cfg.window > 0 && state == Run(cfg, Init(start), history)
    }

    constructor (cfg: Config, start: int, replies: seq<Reply>, others: seq<seq<Action>>)
      requires cfg.window > 0
      ensures Valid() && state == Init(start) && this.cfg == cfg
      ensures this.replies == replies && this.others == others
    {
      this.cfg, this.start := cfg, start;
      state := Init(start);
      history := [];
      this.replies, this.others := replies, others;
    }

    /** At every moment of every call the quotas hold of all counts given so far. */
    lemma QuotasHold(epoch: nat, from: int)
      requires Valid()
      ensures Passing(cfg, state.stores.log, epoch) == Min(Given(state.stores.log, epoch), cfg.max)
      ensures PassingIn(cfg, state.stores.log, from, from + cfg.window) <= 2 * cfg.max
    {
      QuotaPerLifetime(cfg, start, history, epoch);
      QuotaPerInterval(cfg, start, history, from);
    }

    method Act(a: Action)
      requires Valid()
      modifies this`state, this`history
      ensures Valid() && state == Next(cfg, old(state), a) && history == old(history) + [a]
    {
      RunSnoc(cfg, Init(start), history, a);
      state := Next(cfg, state, a);
      history := history + [a];
    }

    /** One action of the others, left out if it would move process `me`. */
    method ActUnless(me: nat, a: Action)
      requires Valid() && me < |state.procs|
      modifies this`state, this`history
      ensures Valid() && me < |state.procs| && state.procs[me] == old(state).procs[me]
      ensures old(state).stores.now <= state.stores.now && old(state).stores.log <= state.stores.log
      ensures history == if Moves(a, me) then old(history) else old(history) + [a]
    {
      hide Step, Run;
      if !Moves(a, me) {
        NextExtends(cfg, state, a);
        Act(a);
      }
    }

    method Interfere(me: nat)
      requires Valid() && me < |state.procs|
      modifies this`state, this`history, this`others
      ensures Valid() && old(history) <= history
      ensures me < |state.procs| && state.procs[me] == old(state).procs[me]
      ensures old(state).stores.now <= state.stores.now && old(state).stores.log <= state.stores.log
      ensures old(others) == [] ==> others == [] && state == old(state) && history == old(history)
      ensures old(others) != [] ==>
                others == old(others)[1..] && history == Joined(old(history), old(others)[0], me)
    {
      hide Step, Run, Moves;
      if others == [] {
        return;
      }
      hide Joined;
      JoinedExactly(history, [], me, Advance(me, Done));
      var acts := others[0];
      others := others[1..];
      for i := 0 to |acts|
        invariant Valid() && old(history) <= history
        invariant me < |state.procs| && state.procs[me] == old(state).procs[me]
        invariant old(state).stores.now <= state.stores.now && old(state).stores.log <= state.stores.log
        invariant others == old(others)[1..]
        invariant history == Joined(old(history), acts[..i], me)
      {
        JoinedExactly(old(history), acts[..i], me, acts[i]);
        assert acts[..i + 1] == acts[..i] + [acts[i]];
        ActUnless(me, acts[i]);
      }
      assert acts[..|acts|] == acts;
    }

    /** One command of process me, after whatever the others do first. */
    method Redis(me: nat) returns (reply: Reply, before: Stores)
      requires Valid() && me < |state.procs|
      modifies this`state, this`history, this`others, this`replies
      ensures Valid() && old(history) <= history && me < |state.procs|
      ensures Step(cfg, before, me, old(state).procs[me], reply) == Move(state.stores, state.procs[me])
      ensures old(state).stores.log <= before.log <= state.stores.log
      ensures old(state).stores.now <= before.now == state.stores.now
      ensures CounterOk(cfg, before)
      ensures old(others) == [] ==> others == [] && before == old(state).stores
      ensures old(replies) == [] ==> replies == [] && reply.Done?
      ensures history == Extended(old(history), old(others), me, reply)
    {
      hide Step, CounterOk;
      Interfere(me);
      reply, before := NextReply(replies), state.stores;
      replies := Remaining(replies);
      Reachable(cfg, start, history);
      NextExtends(cfg, state, Advance(me, reply));
      StepKeepsTime(cfg, state.stores, me, state.procs[me], reply);
      Act(Advance(me, reply));
    }

    /** The wall clock, in seconds. */
    method DateNow(me: nat) returns (t: int)
      requires Valid() && me < |state.procs|
      modifies this`state, this`history, this`others
      ensures Valid() && old(history) <= history && me < |state.procs|
      ensures state.procs[me] == old(state).procs[me] && old(state).stores.log <= state.stores.log
      ensures old(state).stores.now <= t == state.stores.now
      ensures old(others) == [] ==> others == [] && state == old(state)
    {
      Interfere(me);
      t := state.stores.now;
    }
  }

  lemma StepKeepsTime(cfg: Config, s: Stores, p: nat, ph: Phase, reply: Reply)
    ensures Step(cfg, s, p, ph, reply).stores.now == s.now
    ensures s.log <= Step(cfg, s, p, ph, reply).stores.log
  {
  }

  lemma NextExtends(cfg: Config, s: State, a: Action)
    ensures s.stores.now <= Next(cfg, s, a).stores.now && s.stores.log <= Next(cfg, s, a).stores.log
  {
    hide Step;
    if a.Advance? && a.p < |s.procs| {
      StepKeepsTime(cfg, s.stores, a.p, s.procs[a.p], a.reply);
    }
  }

  /** How far a lifetime has counted when a request comes in. */
  function CountSoFar(s: Stores): nat {
    match s.key
    case Absent => 0
    case Present(count, None) => count
    case Present(count, Some(deadline)) => if deadline <= s.now then 0 else count
  }

  /** When the lifetime that counts this request ends, if its EXPIRE NX arrives. */
  function LifetimeEnd(cfg: Config, s: Stores): int {
    match s.key
    case Present(_, Some(deadline)) => if deadline <= s.now then s.now + cfg.window else deadline
    case _ => s.now + cfg.window
  }

  lemma TimeLeft(cfg: Config, s: Stores, p: nat, mount: nat)
    requires cfg.window > 0
    ensures var t := SetDeadline(cfg, Increment(s, p, mount), true);
            TimeToLive(t) == LifetimeEnd(cfg, s) - s.now > 0
  {
  }

  /** What an INCR enters and answers. */
  lemma CountedNext(s: Stores, p: nat, mount: nat)
    ensures var t := Increment(s, p, mount);
            && |t.log| == |s.log| + 1 && t.log[|s.log|].count == CountSoFar(s) + 1
            && t.log[|s.log|].p == p && t.log[|s.log|].mount == mount && t.log[|s.log|] in t.log
  {
  }

  class RateLimiter {
    const world: LimiterWorld
    const RATE_LIMIT_MAX: nat
    const RATE_LIMIT_WINDOW_SECONDS: nat

    constructor (world: LimiterWorld)
      ensures this.world == world && Configured()
    {
      this.world := world;
      RATE_LIMIT_MAX, RATE_LIMIT_WINDOW_SECONDS := world.cfg.max, world.cfg.window;
    }

    predicate Configured() {
      RATE_LIMIT_MAX == world.cfg.max && RATE_LIMIT_WINDOW_SECONDS == world.cfg.window
    }

    /** INCR, EXPIRE NX and TTL in one pipeline; an error when the whole pipeline is rejected. */
    method Pipeline(me: nat) returns (results: Result<Results>, ghost stamp: Option<Stamp>)
      requires world.Valid() && me < |world.state.procs| && world.state.procs[me].Incrementing?
      modifies world
      ensures world.Valid() && old(world.history) <= world.history && me < |world.state.procs|
      ensures old(world.state).stores.now <= world.state.stores.now
      ensures stamp.Some? ==> stamp.value in world.state.stores.log && stamp.value.p == me
                              && stamp.value.mount == old(world.state).procs[me].call.mount
      ensures results.Ok? ==> results.value.count == (if stamp.Some? then Some(stamp.value.count) else None)
      ensures results.Ok? && results.value.ttl.Some? ==> results.value.ttl.value <= world.cfg.window
      ensures var call := old(world.state).procs[me].call;
              world.state.procs[me] == if results.Error? || stamp.None? then Admit(call, None)
                                       else if results.value.ttl == Some(-1) then FallingBack(call, stamp)
                                       else Decide(world.cfg, call, stamp.value)
      ensures old(world.others == [] && world.replies == []) ==>
                && world.others == [] && world.replies == [] && results.Ok? && stamp.Some?
                && stamp.value.count == CountSoFar(old(world.state).stores) + 1
                && results.value.ttl == Some(LifetimeEnd(world.cfg, old(world.state).stores) - world.state.stores.now)
                && results.value.ttl.value > 0 && world.state.stores.now == old(world.state).stores.now
    {
      hide Run, Joined, Extended, Moves, Counted, Lifetimes, KeyOk, SetDeadline, LifetimeEnd, TimeToLive;
      hide CountSoFar, Increment, Current;
      ghost var mount := world.state.procs[me].call.mount;
      TimeLeft(world.cfg, world.state.stores, me, mount);
      var reply, before := world.Redis(me);
      CountedNext(before, me, mount);
      stamp := world.state.procs[me].got;
      var count := if world.state.procs[me].got.Some? then Some(world.state.procs[me].got.value.count) else None;
      reply, before := world.Redis(me);
      reply, before := world.Redis(me);
      LiveAtMostAWindow(world.cfg, before);
      var ttl := world.state.procs[me].ttl;
      reply, before := world.Redis(me);
      results := if reply.Fault? then Error("pipeline") else Ok(Results(count, ttl));
    }

    /** One limiter call for process me. Headers are set exactly when the increment was
        answered and a missing deadline could be repaired; only then can the request be
        rejected, exactly when its count exceeds the quota; otherwise it passes uncounted.
        The reset time is in the future, by a window at most. Undisturbed and without
        faults, the request is rejected exactly when the lifetime had already given MAX, and
        the reset time is that lifetime's end. */
    method Limit(me: nat) returns (answer: Answer, headers: Option<Headers>, ghost stamp: Option<Stamp>)
      requires Configured() && world.Valid()
      requires me < |world.state.procs| && world.state.procs[me].Incrementing?
      modifies world
      ensures world.Valid() && old(world.history) <= world.history && me < |world.state.procs|
      ensures headers.Some? ==> stamp.Some? && stamp.value in world.state.stores.log && stamp.value.p == me
      ensures headers.Some? ==> stamp.value.mount == old(world.state).procs[me].call.mount
      ensures headers.Some? ==> headers.value.limit == world.cfg.max
      ensures headers.Some? ==> headers.value.remaining + Min(stamp.value.count, world.cfg.max) == world.cfg.max
      ensures headers.Some? ==>
                old(world.state).stores.now < headers.value.reset <= world.state.stores.now + world.cfg.window
      ensures answer.Rejected? <==> headers.Some? && stamp.value.count > world.cfg.max
      ensures answer.Rejected? ==> answer.status == 429 && answer.retryAfter <= world.cfg.window
      ensures answer.Rejected? ==> answer.retryAfter == headers.value.reset - world.state.stores.now
      ensures world.state.procs[me] == if answer.Rejected? then Blocked(stamp.value)
                                       else Admit(old(world.state).procs[me].call,
                                                  if headers.Some? then stamp else None)
      ensures old(world.others == [] && world.replies == []) ==>
                && headers.Some? && (answer.Rejected? <==> CountSoFar(old(world.state).stores) >= world.cfg.max)
                && headers.value.reset == LifetimeEnd(world.cfg, old(world.state).stores)
    {
      hide Run, Step, Current, CounterOk, Admit, LifetimeEnd;
      var results;
      results, stamp := Pipeline(me);
      if results.Error? || results.value.count.None? {
        return NextHandler, None, stamp;
      }
      var currentCount, ttl := results.value.count.value, results.value.ttl;
      if ttl == Some(-1) {
        var reply := Expire(me);
        if reply.Fault? {
          return NextHandler, None, stamp;
        }
      }
      var remaining := Max(0, RATE_LIMIT_MAX - currentCount);
      var now := world.DateNow(me);
      var resetTime := now + if ttl.Some? && ttl.value > 0 then ttl.value else RATE_LIMIT_WINDOW_SECONDS;
      headers := Some(Headers(RATE_LIMIT_MAX, remaining, resetTime));
      if currentCount > RATE_LIMIT_MAX {
        now := world.DateNow(me);
        return Rejected(429, resetTime - now), headers, stamp;
      }
      return NextHandler, headers, stamp;
    }

    /** The fallback EXPIRE, for a key whose EXPIRE NX did not take. */
    method Expire(me: nat) returns (reply: Reply)
      requires world.Valid() && me < |world.state.procs|
      requires world.state.procs[me].FallingBack? && world.state.procs[me].got.Some?
      modifies world
      ensures world.Valid() && old(world.history) <= world.history && me < |world.state.procs|
      ensures old(world.state).stores.now <= world.state.stores.now
      ensures old(world.state).stores.log <= world.state.stores.log
      ensures var ph := old(world.state).procs[me];
              world.state.procs[me] == if reply.Fault? then Admit(ph.call, None)
                                       else Decide(world.cfg, ph.call, ph.got.value)
      ensures old(world.others == [] && world.replies == []) ==> reply.Done?
    {
      var before;
      reply, before := world.Redis(me);
    }

    lemma LiveAtMostAWindow(cfg: Config, s: Stores)
      requires CounterOk(cfg, s)
      ensures TimeToLive(s) <= cfg.window
    {
    }
  }
}
