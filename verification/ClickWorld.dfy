/**
 The world the click-handling objects run in. Its state is always one that `ClickMachine`
 reaches: each command an object sends is one step of its process, and before every command
 the other processes take whatever steps their schedule says. What the lemmas about runs
 say therefore holds at every moment of every call.
 */
module ClickWorlds {
  import opened Environment
  import opened ClickEvents
  import opened ClickMachine
  import opened ClickLedger

  /** A history after a stretch of others' actions, when process `me` is held in place. */
  function Joined(history: seq<Action>, acts: seq<Action>, me: nat): seq<Action> {
    if acts == [] then history
    else
      var last := |acts| - 1;
      var before := Joined(history, acts[..last], me);
      if Moves(acts[last], me) then before else before + [acts[last]]
  }

  /** Nothing is left out but what would move `me`. */
  lemma JoinedExactly(history: seq<Action>, acts: seq<Action>, me: nat, a: Action)
    ensures Joined(history, [], me) == history
    ensures Joined(history, acts + [a], me)
         == (if ((a.Tick? || a.Advance?) && a.p == me)
             then Joined(history, acts, me) else Joined(history, acts, me) + [a])
  {
    assert (acts + [a])[..|acts|] == acts;
  }

  /** A history after one command of `me`, met by the first stretch of the others' schedule. */
  function Extended(history: seq<Action>, others: seq<seq<Action>>, me: nat, reply: Reply): seq<Action> {
    (if others == [] then history else Joined(history, others[0], me)) + [Advance(me, reply)]
  }


  class ClickWorld {
    const cfg: Config
    const day: string
    var state: State
    ghost var history: seq<Action>
    var redisReplies: seq<Reply>   // replies still to come
    var sqlReplies: seq<Reply>
    var others: seq<seq<Action>>   // what the others do before each command
    var clients: int               // pool clients checked out through this world

    /** The state is the one the history leads to. */
    ghost predicate Valid()
      reads this
    {
      state == Run(cfg, Init(cfg, day), history)
    }

    /** At every moment of every call the ledger balances. */
    lemma LedgerHolds(r: Raw)
      requires Valid()
      ensures Ledger(cfg, state, r)
    {
      Conservation(cfg, day, history, r);
    }

    /** Nobody else acts and no Redis command fails. */
    predicate Alone()
      reads this
    {
      others == [] && redisReplies == []
    }

    constructor (cfg: Config, day: string, redisReplies: seq<Reply>, sqlReplies: seq<Reply>,
                 others: seq<seq<Action>>)
      ensures Valid() && state == Init(cfg, day) && clients == 0
      ensures this.cfg == cfg && this.redisReplies == redisReplies && this.sqlReplies == sqlReplies
      ensures Alone() <==> others == [] && redisReplies == []
      ensures this.others == others
    {
      this.cfg, this.day := cfg, day;
      state := Init(cfg, day);
      history := [];
      this.redisReplies, this.sqlReplies, this.others := redisReplies, sqlReplies, others;
      clients := 0;
    }

    /** One action of the run. */
    method Act(a: Action)
      requires Valid()
      modifies this`state, this`history
      ensures Valid() && state == Next(cfg, old(state), a) && history == old(history) + [a]
    {
      RunSnoc(cfg, Init(cfg, day), history, a);
      state := Next(cfg, state, a);
      history := history + [a];
    }

    /** One action of the others, left out if it would move process `me`. */
    method ActUnless(me: nat, a: Action)
      requires Valid() && me < |state.procs|
      modifies this`state, this`history
      ensures Valid() && me < |state.procs| && state.procs[me] == old(state).procs[me]
      ensures history == if Moves(a, me) then old(history) else old(history) + [a]
    {
      hide Step, Run;
      if !Moves(a, me) {
        Act(a);
      }
    }

    /** The others act; process `me` stays where it is. */
    method Interfere(me: nat)
      requires Valid() && me < |state.procs|
      modifies this`state, this`history, this`others
      ensures Valid() && old(history) <= history
      ensures me < |state.procs| && state.procs[me] == old(state).procs[me]
      ensures old(others) == [] ==> others == [] && state == old(state) && history == old(history)
      ensures old(others) != [] ==>
                others == old(others)[1..] && history == Joined(old(history), old(others)[0], me)
    {
      hide Step, Run, Moves;
      if others == [] {
        return;
      }
      hide Joined;
      JoinedExactly(history, [], me, Advance(me, Done));
      var acts := others[0];
      others := others[1..];
      for i := 0 to |acts|
        invariant Valid() && old(history) <= history
        invariant me < |state.procs| && state.procs[me] == old(state).procs[me]
        invariant others == old(others)[1..]
        invariant history == Joined(old(history), acts[..i], me)
      {
        JoinedExactly(old(history), acts[..i], me, acts[i]);
        assert acts[..i + 1] == acts[..i] + [acts[i]];
        ActUnless(me, acts[i]);
      }
      assert acts[..|acts|] == acts;
    }

    /** One Redis command of process `me`, met by the stores as `before` shows them. */
    method Redis(me: nat) returns (reply: Reply, before: Stores)
      requires Valid() && me < |state.procs|
      modifies this`state, this`history, this`others, this`redisReplies
      ensures Valid() && old(history) <= history && me < |state.procs|
      ensures Step(cfg, before, old(state).procs[me], reply) == Move(state.stores, state.procs[me])
      ensures old(Alone()) ==> Alone() && reply == Done && before == old(state).stores
      ensures history == Extended(old(history), old(others), me, reply)
    {
      Interfere(me);
      reply, before := NextReply(redisReplies), state.stores;
      redisReplies := Remaining(redisReplies);
      Act(Advance(me, reply));
    }

    /** One SQL statement, or a request for a pool client. */
    method Sql(me: nat) returns (reply: Reply, before: Stores)
      requires Valid() && me < |state.procs|
      modifies this`state, this`history, this`others, this`sqlReplies
      ensures Valid() && old(history) <= history && me < |state.procs|
      ensures Step(cfg, before, old(state).procs[me], reply) == Move(state.stores, state.procs[me])
      ensures reply == NextReply(old(sqlReplies)) && sqlReplies == Remaining(old(sqlReplies))
      ensures old(Alone()) ==> Alone() && before == old(state).stores
      ensures history == Extended(old(history), old(others), me, reply)
    {
      Interfere(me);
      reply, before := NextReply(sqlReplies), state.stores;
      sqlReplies := Remaining(sqlReplies);
      Act(Advance(me, reply));
    }

    /******* Commands of the flush worker *******/

    /** One LPOP of the pipeline: an error, an event, or nil. */
    method Lpop(me: nat) returns (reply: Reply, raw: Option<Raw>)
      requires Valid() && me < |state.procs| && state.procs[me].Popping? && state.procs[me].left > 0
      modifies this`state, this`history, this`others, this`redisReplies
      ensures Valid() && old(history) <= history && me < |state.procs|
      ensures reply.Fault? ==> raw == None
      ensures var ph := old(state).procs[me];
              state.procs[me] == Popping(ph.left - 1, ph.got + if raw.Some? then [raw.value] else [])
      ensures old(Alone()) ==>
                var buffer := old(state).stores.buffer;
                && Alone() && reply == Done
                && raw == (if buffer == [] then None else Some(buffer[0]))
                && state.stores.table == old(state).stores.table
                && state.stores.buffer == if buffer == [] then [] else buffer[1..]
    {
      var before;
      reply, before := Redis(me);
      raw := if reply.Done? && before.buffer != [] then Some(before.buffer[0]) else None;
    }

    /** The reply of the whole pipeline. */
    method Exec(me: nat) returns (reply: Reply)
      requires Valid() && me < |state.procs| && state.procs[me].Popping? && state.procs[me].left == 0
      modifies this`state, this`history, this`others, this`redisReplies
      ensures Valid() && old(history) <= history && me < |state.procs|
      ensures state.procs[me] == var got := old(state).procs[me].got;
                                 if reply.Fault? || ValidOf(cfg.checks, got) == [] then Idle
                                 else Connecting(Worker, got)
      ensures old(Alone()) ==> Alone() && reply == Done && state.stores.buffer == old(state).stores.buffer
                               && state.stores.table == old(state).stores.table
    {
      hide WellFormed;
      var before;
      reply, before := Redis(me);
    }

    /** A pool client for process `me`. */
    method Connect(me: nat) returns (reply: Reply)
      requires Valid() && me < |state.procs| && state.procs[me].Connecting?
      modifies this
      ensures Valid() && old(history) <= history && me < |state.procs|
      ensures clients == old(clients) + if reply.Done? then 1 else 0
      ensures reply == NextReply(old(sqlReplies)) && sqlReplies == Remaining(old(sqlReplies))
      ensures state.procs[me] == var ph := old(state).procs[me];
                                 if reply.Fault? then Ended(ph.who)
                                 else if ph.who.Worker? then Beginning(ph.batch)
                                 else Inserting(Service, ph.batch)
      ensures old(Alone()) ==> Alone() && state.stores.buffer == old(state).stores.buffer
                               && state.stores.table == old(state).stores.table
    {
      hide ValidOf, InvalidOf;
      var before;
      reply, before := Sql(me);
      clients := clients + if reply.Done? then 1 else 0;
    }

    method Release()
      modifies this`clients
      ensures clients == old(clients) - 1
    {
      clients := clients - 1;
    }

    method Begin(me: nat) returns (reply: Reply)
      requires Valid() && me < |state.procs| && state.procs[me].Beginning?
      modifies this`state, this`history, this`others, this`sqlReplies
      ensures Valid() && old(history) <= history && me < |state.procs|
      ensures reply == NextReply(old(sqlReplies)) && sqlReplies == Remaining(old(sqlReplies))
      ensures state.procs[me] == var batch := old(state).procs[me].batch;
                                 if reply.Done? then Inserting(Worker, batch)
                                 else RollingBack(batch, reply.code, false)
      ensures old(Alone()) ==> Alone() && state.stores.buffer == old(state).stores.buffer
                               && state.stores.table == old(state).stores.table
    {
      var before;
      reply, before := Sql(me);
    }

    /** The worker's multi-row INSERT: bound, it must name the rows of the well-formed events
        of its batch, in order. */
    method Insert(me: nat, query: string, params: seq<Json>) returns (reply: Reply)
      requires Valid() && me < |state.procs| && state.procs[me].Inserting? && state.procs[me].who.Worker?
      requires Bind(query, params) == Some(RowsOf(cfg.checks, ValidOf(cfg.checks, state.procs[me].batch)))
      modifies this`state, this`history, this`others, this`sqlReplies
      ensures Valid() && old(history) <= history && me < |state.procs|
      ensures reply == NextReply(old(sqlReplies)) && sqlReplies == Remaining(old(sqlReplies))
      ensures state.procs[me] == var batch := old(state).procs[me].batch;
                                 if reply.Done? then Committing(batch)
                                 else RollingBack(batch, reply.code, false)
      ensures old(Alone()) ==> Alone() && state.stores.buffer == old(state).stores.buffer
                               && state.stores.table == old(state).stores.table
    {
      hide ValidOf, Bind, RowsOf;
      var before;
      reply, before := Sql(me);
    }

    method Commit(me: nat) returns (reply: Reply)
      requires Valid() && me < |state.procs| && state.procs[me].Committing?
      modifies this`state, this`history, this`others, this`sqlReplies
      ensures Valid() && old(history) <= history && me < |state.procs|
      ensures reply == NextReply(old(sqlReplies)) && sqlReplies == Remaining(old(sqlReplies))
      ensures state.procs[me] == var batch := old(state).procs[me].batch;
                                 if reply.Done? then Idle else RollingBack(batch, reply.code, reply.applied)
      ensures old(Alone()) ==>
                && Alone() && state.stores.buffer == old(state).stores.buffer
                && state.stores.table == old(state).stores.table
                     + if reply.Done? || reply.applied then ValidOf(cfg.checks, old(state).procs[me].batch) else []
    {
      hide ValidOf, InvalidOf;
      var before;
      reply, before := Sql(me);
    }

    method Rollback(me: nat) returns (reply: Reply)
      requires Valid() && me < |state.procs| && state.procs[me].RollingBack?
      modifies this`state, this`history, this`others, this`sqlReplies
      ensures Valid() && old(history) <= history && me < |state.procs|
      ensures reply == NextReply(old(sqlReplies)) && sqlReplies == Remaining(old(sqlReplies))
      ensures state.procs[me] == var ph := old(state).procs[me];
                                 if reply.Done? && IsTransient(ph.code) then Requeueing(Worker, ph.batch, ph.stored)
                                 else Idle
      ensures old(Alone()) ==> Alone() && state.stores.buffer == old(state).stores.buffer
                               && state.stores.table == old(state).stores.table
    {
      hide ValidOf, InvalidOf, Unstored;
      var before;
      reply, before := Sql(me);
    }

    /** RPUSH of the re-queue loop: it must push the next event of the batch. */
    method PushBackNext(me: nat, raw: Raw) returns (reply: Reply)
      requires Valid() && me < |state.procs| && state.procs[me].Requeueing?
      requires state.procs[me].rest != [] && raw == state.procs[me].rest[0]
      modifies this`state, this`history, this`others, this`redisReplies
      ensures Valid() && old(history) <= history && me < |state.procs|
      ensures state.procs[me] == var ph := old(state).procs[me];
                                 if reply.Fault? || ph.rest[1..] == [] then Ended(ph.who)
                                 else Requeueing(ph.who, ph.rest[1..], ph.stored)
      ensures old(Alone()) ==>
                && Alone() && reply == Done && state.stores.buffer == old(state).stores.buffer + [raw]
                && state.stores.table == old(state).stores.table
    {
      hide ValidOf, InvalidOf, Unstored, IsStored;
      var before;
      reply, before := Redis(me);
    }

    /******* Commands of a producer *******/

    /** LLEN: the length of the list, when it answers. */
    method Llen(me: nat) returns (reply: Reply, size: nat)
      requires Valid() && me < |state.procs| && state.procs[me].Checking?
      modifies this`state, this`history, this`others, this`redisReplies
      ensures Valid() && old(history) <= history && me < |state.procs|
      ensures state.procs[me] == if reply.Done? && size < MAX_BUFFER_SIZE then Counting(old(state).procs[me].e)
                                 else Tracked
      ensures old(Alone()) ==> Alone() && reply == Done && size == |old(state).stores.buffer|
                               && state.stores == old(state).stores
    {
      var before;
      reply, before := Redis(me);
      size := |before.buffer|;
    }

    /** HINCRBY metrics:clicks:{urlId} total 1. */
    method Hincrby(me: nat, urlId: string) returns (reply: Reply)
      requires Valid() && me < |state.procs| && state.procs[me].Counting? && urlId == state.procs[me].e.urlId
      modifies this`state, this`history, this`others, this`redisReplies
      ensures Valid() && old(history) <= history && me < |state.procs|
      ensures state.procs[me] == if reply.Done? then Visiting(old(state).procs[me].e) else Tracked
      ensures old(Alone()) ==>
                Alone() && reply == Done
                && state.stores == old(state).stores.(counters := CountClick(old(state).stores.counters, urlId))
    {
      var before;
      reply, before := Redis(me);
    }

    /** SADD metrics:visitors:{urlId}:{today} {fingerprint}. */
    method Sadd(me: nat, urlId: string, fingerprint: string) returns (reply: Reply)
      requires Valid() && me < |state.procs| && state.procs[me].Visiting?
      requires urlId == state.procs[me].e.urlId
      requires fingerprint == Fingerprint(state.procs[me].e.ip, state.procs[me].e.userAgent)
      modifies this`state, this`history, this`others, this`redisReplies
      ensures Valid() && old(history) <= history && me < |state.procs|
      ensures state.procs[me] == if reply.Done? then Pushing(old(state).procs[me].e) else Tracked
      ensures old(Alone()) ==>
                var s := old(state).stores;
                Alone() && reply == Done
                && state.stores == s.(counters := CountVisit(s.counters, old(state).procs[me].e, s.today))
    {
      var before;
      reply, before := Redis(me);
    }

    /** RPUSH of the event itself. */
    method Rpush(me: nat, raw: Raw) returns (reply: Reply)
      requires Valid() && me < |state.procs| && state.procs[me].Pushing? && raw == Payload(state.procs[me].e)
      modifies this`state, this`history, this`others, this`redisReplies
      ensures Valid() && old(history) <= history && me < |state.procs| && state.procs[me] == Tracked
      ensures old(Alone()) ==>
                Alone() && reply == Done
                && state.stores == PushClick(old(state).stores, old(state).procs[me].e)
    {
      var before;
      reply, before := Redis(me);
    }

    /******* Commands of the on-demand consumer *******/

    /** One LPOP of the on-demand consumer. */
    method DrainOne(me: nat) returns (reply: Reply, raw: Option<Raw>)
      requires Valid() && me < |state.procs| && state.procs[me].Draining? && state.procs[me].left > 0
      modifies this`state, this`history, this`others, this`redisReplies
      ensures Valid() && old(history) <= history && me < |state.procs|
      ensures reply.Fault? ==> raw == None
      ensures state.procs[me] ==
              var left, got := old(state).procs[me].left, old(state).procs[me].got;
              if reply.Fault? then Consumed
              else if raw.None? || raw.value == Garbage("") then Drained(got)
              else var got' := if raw.value.Garbage? then got else got + [raw.value];
                   if left == 1 then Drained(got') else Draining(left - 1, got')
      ensures old(Alone()) ==>
                var buffer := old(state).stores.buffer;
                && Alone() && reply == Done && state.stores.table == old(state).stores.table
                && raw == (if buffer == [] then None else Some(buffer[0]))
                && state.stores.buffer == if buffer == [] then [] else buffer[1..]
    {
      hide ValidOf, InvalidOf;
      var before;
      reply, before := Redis(me);
      raw := if reply.Done? && before.buffer != [] then Some(before.buffer[0]) else None;
    }

    /** Building the parameters throws before anything is sent. */
    method FailToBind(me: nat)
      requires Valid() && me < |state.procs| && state.procs[me].Inserting? && state.procs[me].who.Service?
      requires !AllBindable(state.procs[me].batch)
      modifies this`state, this`history
      ensures Valid() && old(history) <= history && me < |state.procs|
      ensures state.procs[me] == Requeueing(Service, old(state).procs[me].batch, false)
      ensures state.stores == old(state).stores
    {
      Act(Advance(me, Done));
    }

    /** The on-demand consumer's INSERT, outside any transaction: bound, it must name
        the rows of its batch, in order. */
    method InsertAll(me: nat, query: string, params: seq<Json>) returns (reply: Reply)
      requires Valid() && me < |state.procs| && state.procs[me].Inserting? && state.procs[me].who.Service?
      requires AllBindable(state.procs[me].batch)
      requires Bind(query, params) == Some(ServiceRows(state.procs[me].batch))
      modifies this`state, this`history, this`others, this`sqlReplies
      ensures Valid() && old(history) <= history && me < |state.procs|
      ensures reply == NextReply(old(sqlReplies)) && sqlReplies == Remaining(old(sqlReplies))
      ensures state.procs[me] == if reply.Done? then Consumed
                                 else Requeueing(Service, old(state).procs[me].batch, reply.applied)
      ensures old(Alone()) ==>
                && Alone() && state.stores.buffer == old(state).stores.buffer
                && state.stores.table == old(state).stores.table
                                         + if reply.Done? || reply.applied then old(state).procs[me].batch else []
    {
      hide AllBindable, Bind, ServiceRow;
      var before;
      reply, before := Sql(me);
    }
  }
}
