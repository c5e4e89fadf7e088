/**
 The flush worker: src/workers/analyticsFlushWorker.ts.

 `Flush` and `PersistBatch` send the commands of one worker process of `ClickMachine`, in
 the source's order and on every error path, so the ledger and the delivery lemmas hold
 throughout. Left alone with a healthy Redis, a flush does to the list exactly what
 `FlushedBuffer` says.
 */
module FlushWorkers {
  import opened Environment
  import opened ClickEvents
  import opened ClickMachine
  import opened ClickWorlds

  /** What a cycle does with a batch worth storing. */
  datatype Verdict = Stored | Rotated | Dropped

  function AfterError(code: string, sql: seq<Reply>): Verdict {
    if NextReply(sql).Done? && IsTransient(code) then Rotated else Dropped
  }

  /** The reply that BEGIN, the INSERT and COMMIT end with, and the replies left after it. */
  function StoreReply(sql: seq<Reply>): Reply {
    if NextReply(sql).Fault? then NextReply(sql)
    else if NextReply(Remaining(sql)).Fault? then NextReply(Remaining(sql))
    else NextReply(Remaining(Remaining(sql)))
  }

  function StoreRest(sql: seq<Reply>): seq<Reply> {
    if NextReply(sql).Fault? then Remaining(sql)
    else if NextReply(Remaining(sql)).Fault? then Remaining(Remaining(sql))
    else Remaining(Remaining(Remaining(sql)))
  }

  /** The verdict the database's next replies lead to: the pool's, those of the transaction
      up to the first error, and ROLLBACK's. */
  function VerdictOf(sql: seq<Reply>): Verdict {
    var store := StoreReply(Remaining(sql));
    if NextReply(sql).Fault? then Dropped
    else if store.Fault? then AfterError(store.code, StoreRest(Remaining(sql)))
    else Stored
  }

  /** Whether BEGIN, the INSERT and COMMIT all take effect, COMMIT perhaps behind an error. */
  predicate Commits(sql: seq<Reply>) {
    && NextReply(sql).Done? && NextReply(Remaining(sql)).Done?
    && var commit := NextReply(Remaining(Remaining(sql)));
       commit.Done? || commit.applied
  }

  /** The rows a cycle stores of its batch, given the database's next replies. */
  function StoredOf(cfg: Config, batch: seq<Raw>, sql: seq<Reply>): seq<Raw> {
    if NextReply(sql).Done? && Commits(Remaining(sql)) then ValidOf(cfg.checks, batch) else []
  }

  /** The first n events of a list, or all it has, and the others. */
  function First(buffer: seq<Raw>, n: nat): seq<Raw> {
    buffer[..Min(n, |buffer|)]
  }

  function Others(buffer: seq<Raw>, n: nat): seq<Raw> {
    buffer[Min(n, |buffer|)..]
  }

  lemma FirstNone(buffer: seq<Raw>)
    ensures First(buffer, 0) == [] && Others(buffer, 0) == buffer
  {
  }

  lemma FirstNext(buffer: seq<Raw>, n: nat)
    ensures var rest := Others(buffer, n);
            && First(buffer, n + 1) == First(buffer, n) + (if rest == [] then [] else [rest[0]])
            && Others(buffer, n + 1) == if rest == [] then [] else rest[1..]
  {
  }

  /** The list after an undisturbed cycle. */
  function FlushedBuffer(cfg: Config, buffer: seq<Raw>, sql: seq<Reply>): seq<Raw> {
    if Rotates(cfg, buffer, sql) then Others(buffer, cfg.batch) + First(buffer, cfg.batch)
    else Others(buffer, cfg.batch)
  }

  predicate Rotates(cfg: Config, buffer: seq<Raw>, sql: seq<Reply>) {
    ValidOf(cfg.checks, First(buffer, cfg.batch)) != [] && VerdictOf(sql) == Rotated
  }

  /** The events among the pipeline's results. */
  function Collected(results: seq<(bool, Option<Raw>)>): seq<Raw> {
    if results == [] then []
    else
      var front, last := Collected(results[..|results| - 1]), results[|results| - 1];
      if !last.0 && last.1.Some? then front + [last.1.value] else front
  }

  lemma CollectedNone()
    ensures Collected([]) == []
  {
  }

  lemma CollectedSnoc(results: seq<(bool, Option<Raw>)>, result: (bool, Option<Raw>))
    ensures Collected(results + [result])
         == if !result.0 && result.1.Some? then Collected(results) + [result.1.value] else Collected(results)
  {
    assert (results + [result])[..|results|] == results;
  }

  lemma NothingStored(cfg: Config, sql: seq<Reply>)
    ensures StoredOf(cfg, [], sql) == []
  {
  }

  class AnalyticsFlushWorker {
    const world: ClickWorld
    const me: nat
    var isRunning: bool
    var scheduled: bool  // intervalHandle !== null

    /** The worker is running exactly while its process is busy. */
    ghost predicate Valid()
      reads this, world
    {
      && world.Valid()
      && me < |world.state.procs|
      && (isRunning <==> !world.state.procs[me].Idle?)
    }

    constructor (world: ClickWorld, me: nat)
      requires world.Valid() && me < |world.state.procs| && world.state.procs[me].Idle?
      ensures Valid() && this.world == world && this.me == me && !isRunning && !scheduled
    {
      this.world, this.me := world, me;
      isRunning, scheduled := false, false;
    }

    /** The pipeline of LPOPs and its combined reply. */
    method PopBatch() returns (results: seq<(bool, Option<Raw>)>, outcome: Reply)
      requires world.Valid() && me < |world.state.procs|
      requires world.state.procs[me] == Popping(world.cfg.batch, [])
      modifies world
      ensures old(world.history) <= world.history
      ensures world.Valid() && me < |world.state.procs| && world.clients == old(world.clients)
      ensures outcome.Fault? ==> world.state.procs[me] == Idle
      ensures outcome.Done? ==>
                world.state.procs[me] == if ValidOf(world.cfg.checks, Collected(results)) == [] then Idle
                                         else Connecting(Worker, Collected(results))
      ensures old(world.Alone()) ==>
                var buffer := old(world.state).stores.buffer;
                && world.Alone() && outcome == Done && world.sqlReplies == old(world.sqlReplies)
                && Collected(results) == First(buffer, world.cfg.batch)
                && world.state.stores.table == old(world.state).stores.table
                && world.state.stores.buffer == Others(buffer, world.cfg.batch)
    {
      hide Run, Step, ValidOf, WellFormed, Collected, First, Others;
      CollectedNone();
      FirstNone(world.state.stores.buffer);
      ghost var buffer := world.state.stores.buffer;
      results := [];
      for i := 0 to world.cfg.batch
        invariant old(world.history) <= world.history
        invariant world.Valid() && me < |world.state.procs| && world.clients == old(world.clients)
        invariant world.state.procs[me] == Popping(world.cfg.batch - i, Collected(results))
        invariant old(world.Alone()) ==>
                    && world.Alone() && world.sqlReplies == old(world.sqlReplies)
                    && Collected(results) == First(buffer, i) && world.state.stores.buffer == Others(buffer, i)
                    && world.state.stores.table == old(world.state).stores.table
      {
        FirstNext(buffer, i);
        var reply, raw := world.Lpop(me);
        CollectedSnoc(results, (reply.Fault?, raw));
        results := results + [(reply.Fault?, raw)];
      }
      outcome := world.Exec(me);
    }

    method Flush()
      requires Valid()
      modifies this`isRunning, world
      ensures old(world.history) <= world.history
      ensures Valid() && isRunning == old(isRunning) && world.clients == old(world.clients)
      ensures old(isRunning) ==> world.state == old(world.state)
      ensures old(world.Alone() && !isRunning) ==>
                && world.Alone()
                && world.state.stores.buffer
                   == FlushedBuffer(world.cfg, old(world.state).stores.buffer, old(world.sqlReplies))
                && world.state.stores.table
                   == old(world.state).stores.table
                      + StoredOf(world.cfg, First(old(world.state).stores.buffer, world.cfg.batch),
                                 old(world.sqlReplies))
    {
      hide Run, Step, ValidOf, WellFormed, Commits;
      NothingStored(world.cfg, world.sqlReplies);
      if isRunning {
        return;
      }
      isRunning := true;
      world.Act(Tick(me));
      var results, outcome := PopBatch();
      if outcome.Done? {
        var events: seq<Raw> := [];
        for i := 0 to |results|
          invariant events == Collected(results[..i])
        {
          assert results[..i + 1][..i] == results[..i];
          if !results[i].0 && results[i].1.Some? {
            events := events + [results[i].1.value];
          }
        }
        assert results[..|results|] == results;
        if |events| != 0 {
          PersistBatch(events);
        }
      }
      isRunning := false;
    }

    /** Parse and check the batch, store what passes, and on an error decide between
        re-queueing the raw batch and discarding it. Errors end in the caller's catch block. */
    method PersistBatch(rawEvents: seq<Raw>)
      requires world.Valid() && me < |world.state.procs|
      requires world.state.procs[me] == if ValidOf(world.cfg.checks, rawEvents) == [] then Idle
                                        else Connecting(Worker, rawEvents)
      modifies world
      ensures old(world.history) <= world.history
      ensures world.Valid() && me < |world.state.procs| && world.state.procs[me] == Idle
      ensures world.clients == old(world.clients)
      ensures old(world.Alone()) ==>
                && world.Alone()
                && world.state.stores.buffer
                   == (if ValidOf(world.cfg.checks, rawEvents) != [] && VerdictOf(old(world.sqlReplies)) == Rotated
                       then old(world.state).stores.buffer + rawEvents else old(world.state).stores.buffer)
                && world.state.stores.table
                   == old(world.state).stores.table + StoredOf(world.cfg, rawEvents, old(world.sqlReplies))
    {
      hide Run, Step, ValidOf, WellFormed, StoreReply, StoreRest, Commits;
      var parsedEvents := ParseBatch(rawEvents);
      if |parsedEvents| == 0 {
        return;
      }
      var reply := world.Connect(me);
      if reply.Fault? {
        return;
      }
      StoreOrRequeue(rawEvents, parsedEvents);
      world.Release();
    }

    /** The try and catch blocks: an error of the transaction rolls back, and a transient one
        re-queues unless ROLLBACK fails. */
    method StoreOrRequeue(rawEvents: seq<Raw>, parsedEvents: seq<Raw>)
      requires world.Valid() && me < |world.state.procs| && world.state.procs[me] == Beginning(rawEvents)
      requires parsedEvents == ValidOf(world.cfg.checks, rawEvents) && rawEvents != []
      modifies world
      ensures old(world.history) <= world.history
      ensures world.Valid() && me < |world.state.procs| && world.state.procs[me] == Idle
      ensures world.clients == old(world.clients)
      ensures old(world.Alone()) ==>
                var store, sql := StoreReply(old(world.sqlReplies)), StoreRest(old(world.sqlReplies));
                && world.Alone()
                && world.state.stores.buffer
                   == (if store.Fault? && NextReply(sql).Done? && store.code in {"08001", "08003", "08006", "57P01"}
                       then old(world.state).stores.buffer + rawEvents else old(world.state).stores.buffer)
                && world.state.stores.table
                   == old(world.state).stores.table + if Commits(old(world.sqlReplies)) then parsedEvents else []
    {
      hide Run, Step, ValidOf, WellFormed, StoreReply, StoreRest, Commits;
      var reply := StoreBatch(rawEvents, parsedEvents);
      if reply.Fault? {
        var rollback := world.Rollback(me);
        if rollback.Done? && IsTransient(reply.code) {
          Requeue(rawEvents);
        }
      }
    }

    method ParseBatch(rawEvents: seq<Raw>) returns (parsedEvents: seq<Raw>)
      ensures parsedEvents == ValidOf(world.cfg.checks, rawEvents)
    {
      parsedEvents := [];
      for i := 0 to |rawEvents|
        invariant parsedEvents == ValidOf(world.cfg.checks, rawEvents[..i])
      {
        assert rawEvents[..i + 1][..i] == rawEvents[..i];
        if WellFormed(world.cfg.checks, rawEvents[i]) {
          parsedEvents := parsedEvents + [rawEvents[i]];
        }
      }
      assert rawEvents[..|rawEvents|] == rawEvents;
    }

    /** BEGIN, the bulk INSERT, COMMIT: the first error ends the sequence. */
    method StoreBatch(ghost batch: seq<Raw>, parsedEvents: seq<Raw>) returns (reply: Reply)
      requires world.Valid() && me < |world.state.procs| && world.state.procs[me] == Beginning(batch)
      requires parsedEvents == ValidOf(world.cfg.checks, batch)
      modifies world
      ensures old(world.history) <= world.history
      ensures world.Valid() && me < |world.state.procs| && world.clients == old(world.clients)
      ensures reply.Done? ==> world.state.procs[me] == Idle
      ensures reply.Fault? ==> exists stored :: world.state.procs[me] == RollingBack(batch, reply.code, stored)
      ensures old(world.Alone()) ==>
                && world.Alone() && world.state.stores.buffer == old(world.state).stores.buffer
                && world.state.stores.table
                   == old(world.state).stores.table + if Commits(old(world.sqlReplies)) then parsedEvents else []
      ensures reply == StoreReply(old(world.sqlReplies)) && world.sqlReplies == StoreRest(old(world.sqlReplies))
    {
      hide Run, Step, ValidOf, WellFormed, Bind, InsertQuery, Flatten, RowsOf;
      var query := InsertQuery(|parsedEvents|);
      var flatParams := Flatten(RowsOf(world.cfg.checks, parsedEvents));
      BulkInsertRebuildsRows(world.cfg.checks, batch);
      reply := world.Begin(me);
      if reply.Done? {
        reply := world.Insert(me, query, flatParams);
        if reply.Done? {
          reply := world.Commit(me);
        }
      }
    }

    /** Push the raw batch back; an error drops the rest. */
    method Requeue(rawEvents: seq<Raw>)
      requires world.Valid() && me < |world.state.procs| && rawEvents != []
      requires exists stored :: world.state.procs[me] == Requeueing(Worker, rawEvents, stored)
      modifies world
      ensures old(world.history) <= world.history
      ensures world.Valid() && me < |world.state.procs| && world.state.procs[me] == Idle
      ensures world.clients == old(world.clients)
      ensures old(world.Alone()) ==>
                && world.Alone() && world.state.stores.buffer == old(world.state).stores.buffer + rawEvents
                && world.state.stores.table == old(world.state).stores.table
    {
      hide Run, Step, ValidOf, WellFormed;
      ghost var stored := world.state.procs[me].stored;
      for i := 0 to |rawEvents|
        invariant old(world.history) <= world.history
        invariant world.Valid() && me < |world.state.procs| && world.clients == old(world.clients)
        invariant world.state.procs[me] == if i == |rawEvents| then Idle
                                           else Requeueing(Worker, rawEvents[i..], stored)
        invariant old(world.Alone()) ==>
                    && world.Alone() && world.state.stores.buffer == old(world.state).stores.buffer + rawEvents[..i]
                    && world.state.stores.table == old(world.state).stores.table
      {
        assert rawEvents[i..][1..] == rawEvents[i + 1..] && rawEvents[i..][0] == rawEvents[i];
        assert rawEvents[..i + 1] == rawEvents[..i] + [rawEvents[i]];
        var reply := world.PushBackNext(me, rawEvents[i]);
        if reply.Fault? {
          return;
        }
      }
      assert rawEvents[..|rawEvents|] == rawEvents;
    }

    method Start()
      modifies this`scheduled
      ensures scheduled
    {
      scheduled := true;
    }

    /** Clear the timer and flush once more. */
    method Stop()
      requires Valid()
      modifies this`isRunning, this`scheduled, world
      ensures old(world.history) <= world.history
      ensures Valid() && !scheduled && isRunning == old(isRunning) && world.clients == old(world.clients)
      ensures old(world.Alone() && !isRunning && world.sqlReplies == []) ==>
                |world.state.stores.buffer| == Max(0, |old(world.state).stores.buffer| - world.cfg.batch)
    {
      if scheduled {
        scheduled := false;
      }
      Flush();
    }
  }

  /******* Progress *******/

  /** A cycle that rotates moves the first batch to the end and keeps every event; any other
      takes the first batch off. */
  lemma FlushRotatesOrShortens(cfg: Config, buffer: seq<Raw>, sql: seq<Reply>)
    ensures Rotates(cfg, buffer, sql) ==>
              var m, after := Min(cfg.batch, |buffer|), FlushedBuffer(cfg, buffer, sql);
              after == buffer[m..] + buffer[..m] && |after| == |buffer| && multiset(after) == multiset(buffer)
    ensures !Rotates(cfg, buffer, sql) ==>
              |FlushedBuffer(cfg, buffer, sql)| == Max(0, |buffer| - cfg.batch)
  {
    hide ValidOf, VerdictOf;
    var m := Min(cfg.batch, |buffer|);
    assert buffer == buffer[..m] + buffer[m..];
  }

  /** COMMIT takes effect, but its reply is an error. */
  predicate CommitHidden(sql: seq<Reply>) {
    var tail := Remaining(Remaining(Remaining(sql)));
    && NextReply(sql).Done? && NextReply(Remaining(sql)).Done? && NextReply(Remaining(Remaining(sql))).Done?
    && NextReply(tail).Fault? && NextReply(tail).applied
  }

  /** A cycle that counts as stored has stored every well-formed event of its batch; any other
      has stored none, unless COMMIT took effect behind an error. With a transient code the
      batch is then in the table and on its way back to the list. */
  lemma VerdictDecidesStorage(cfg: Config, batch: seq<Raw>, sql: seq<Reply>)
    ensures VerdictOf(sql) == Stored ==> StoredOf(cfg, batch, sql) == ValidOf(cfg.checks, batch)
    ensures VerdictOf(sql) != Stored ==>
              StoredOf(cfg, batch, sql) == if CommitHidden(sql) then ValidOf(cfg.checks, batch) else []
  {
    hide ValidOf;
  }

  /** The database answers: a client, then BEGIN, the INSERT and COMMIT up to the k-th of them,
      which fails, then ROLLBACK. */
  function FailureScript(k: nat, error: Reply, rollback: Reply, rest: seq<Reply>): seq<Reply>
    requires k < 3
  {
    (if k == 0 then [Done] else if k == 1 then [Done, Done] else [Done, Done, Done]) + [error, rollback] + rest
  }

  /** Written out for every code, at every statement: the batch goes to the end of the list
      exactly when it holds a valid event, ROLLBACK succeeds and the code is one of the four;
      and its valid rows are stored exactly when the failing statement is a COMMIT that took
      effect. */
  lemma FailedFlushExactly(cfg: Config, buffer: seq<Raw>, k: nat, applied: bool, c: string, rollback: Reply,
                           rest: seq<Reply>)
    requires k < 3
    ensures var sql := FailureScript(k, Fault(applied, c), rollback, rest);
            var m := if cfg.batch < |buffer| then cfg.batch else |buffer|;
            var valid := ValidOf(cfg.checks, buffer[..m]);
            && (FlushedBuffer(cfg, buffer, sql)
                == if valid != [] && rollback.Done? && c in {"08001", "08003", "08006", "57P01"}
                   then buffer[m..] + buffer[..m] else buffer[m..])
            && StoredOf(cfg, buffer[..m], sql) == if k == 2 && applied then valid else []
  {
    hide ValidOf;
    FailureReplies(k, Fault(applied, c), rollback, rest);
    hide FailureScript, NextReply, Remaining;
  }

  /** The replies of such a script, one by one. */
  lemma FailureReplies(k: nat, error: Reply, rollback: Reply, rest: seq<Reply>)
    requires k < 3
    ensures var sql := FailureScript(k, error, rollback, rest);
            var tail := Remaining(sql);
            && NextReply(sql) == Done
            && (k > 0 ==> NextReply(tail) == Done) && (k > 1 ==> NextReply(Remaining(tail)) == Done)
            && var at := if k == 0 then tail else if k == 1 then Remaining(tail) else Remaining(Remaining(tail));
               NextReply(at) == error && NextReply(Remaining(at)) == rollback
  {
    var end := [error, rollback] + rest;
    assert end[0] == error && end[1..][0] == rollback;
    if k == 0 {
      assert FailureScript(k, error, rollback, rest) == [Done] + end;
    } else if k == 1 {
      assert FailureScript(k, error, rollback, rest) == [Done, Done] + end;
      assert ([Done, Done] + end)[1..] == [Done] + end;
    } else {
      assert FailureScript(k, error, rollback, rest) == [Done, Done, Done] + end;
      assert ([Done, Done, Done] + end)[1..] == [Done, Done] + end && ([Done, Done] + end)[1..] == [Done] + end;
    }
  }

  /** Without an error the batch leaves the list and its valid events are stored; without a
      client it leaves the list and nothing is stored. */
  lemma OtherFlushesExactly(cfg: Config, buffer: seq<Raw>, applied: bool, c: string, rest: seq<Reply>)
    ensures var m := if cfg.batch < |buffer| then cfg.batch else |buffer|;
            && FlushedBuffer(cfg, buffer, [Done, Done, Done, Done] + rest) == buffer[m..]
            && StoredOf(cfg, buffer[..m], [Done, Done, Done, Done] + rest) == ValidOf(cfg.checks, buffer[..m])
            && FlushedBuffer(cfg, buffer, [Fault(applied, c)] + rest) == buffer[m..]
            && StoredOf(cfg, buffer[..m], [Fault(applied, c)] + rest) == []
  {
    hide ValidOf;
    var sql := [Done, Done, Done, Done] + rest;
    assert Remaining(sql) == [Done, Done, Done] + rest && Remaining(Remaining(sql)) == [Done, Done] + rest;
    assert Remaining(Remaining(Remaining(sql))) == [Done] + rest;
    assert NextReply([Fault(applied, c)] + rest) == Fault(applied, c);
  }

  /** In any run, whoever else acts: after a successful ROLLBACK a worker puts its batch back
      exactly for the four codes. */
  lemma RequeuedCodesExactly(cfg: Config, s: Stores, batch: seq<Raw>, c: string, stored: bool)
    ensures Step(cfg, s, RollingBack(batch, c, stored), Done).phase
         == if c in {"08001", "08003", "08006", "57P01"} then Requeueing(Worker, batch, stored) else Idle
  {
    hide ValidOf, InvalidOf, Unstored;
  }

  /** The list after a series of cycles, one script of database replies each. */
  function AfterFlushes(cfg: Config, buffer: seq<Raw>, scripts: seq<seq<Reply>>): seq<Raw> {
    if scripts == [] then buffer
    else FlushedBuffer(cfg, AfterFlushes(cfg, buffer, scripts[..|scripts| - 1]), scripts[|scripts| - 1])
  }

  /** How many cycles of the series did not rotate. */
  function Shortenings(cfg: Config, buffer: seq<Raw>, scripts: seq<seq<Reply>>): nat {
    if scripts == [] then 0
    else
      Shortenings(cfg, buffer, scripts[..|scripts| - 1])
      + if Rotates(cfg, AfterFlushes(cfg, buffer, scripts[..|scripts| - 1]), scripts[|scripts| - 1]) then 0 else 1
  }

  /** Transient failures never cost the list an event, whatever their number; every other
      cycle takes off a batch, so ceil(n / B) of those empty it. */
  lemma {:induction false} Progress(cfg: Config, buffer: seq<Raw>, scripts: seq<seq<Reply>>)
    ensures |AfterFlushes(cfg, buffer, scripts)|
         == Max(0, |buffer| - Shortenings(cfg, buffer, scripts) * cfg.batch)
    ensures Shortenings(cfg, buffer, scripts) == 0 ==>
              multiset(AfterFlushes(cfg, buffer, scripts)) == multiset(buffer)
  {
    hide ValidOf, VerdictOf, Rotates;
    if scripts != [] {
      var n := |scripts| - 1;
      Progress(cfg, buffer, scripts[..n]);
      FlushRotatesOrShortens(cfg, AfterFlushes(cfg, buffer, scripts[..n]), scripts[n]);
      Distribute(Shortenings(cfg, buffer, scripts[..n]), cfg.batch);
    }
  }

  lemma Distribute(k: nat, b: nat)
    ensures (k + 1) * b == k * b + b && k * b >= 0
  {
  }

  lemma EmptiedByCeiling(cfg: Config, buffer: seq<Raw>, scripts: seq<seq<Reply>>)
    requires cfg.batch > 0
    requires Shortenings(cfg, buffer, scripts) >= (|buffer| + cfg.batch - 1) / cfg.batch
    ensures AfterFlushes(cfg, buffer, scripts) == []
  {
    hide Shortenings, AfterFlushes;
    Progress(cfg, buffer, scripts);
    CeilingCovers(|buffer|, cfg.batch, Shortenings(cfg, buffer, scripts));
  }

  lemma CeilingCovers(n: nat, b: nat, k: nat)
    requires b > 0 && k >= (n + b - 1) / b
    ensures k * b >= n
  {
    var c := (n + b - 1) / b;
    assert c * b + (n + b - 1) % b == n + b - 1;
    assert k * b >= c * b by {
      assert (k - c) * b >= 0;
    }
  }
}
