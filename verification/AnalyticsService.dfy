/**
 The analytics service: src/services/analytics/analyticsService.ts.

 `TrackClick` and `ProcessBufferedClicks` each run as a new process of `ClickMachine`.
 */
module AnalyticsServices {
  import opened Environment
  import opened ClickEvents
  import opened ClickMachine
  import opened ClickLedger
  import opened ClickWorlds
  import opened ClickAgreement

  /** What an undisturbed call of the given size takes off a list: the parseable events it
      keeps, and the list it leaves. An empty string ends the loop after it was popped. */
  function Taken(buffer: seq<Raw>, size: nat): seq<Raw> {
    if size == 0 || buffer == [] || buffer[0] == Garbage("") then []
    else (if buffer[0].Garbage? then [] else [buffer[0]]) + Taken(buffer[1..], size - 1)
  }

  function LeftOver(buffer: seq<Raw>, size: nat): seq<Raw> {
    if size == 0 || buffer == [] then buffer
    else if buffer[0] == Garbage("") then buffer[1..]
    else LeftOver(buffer[1..], size - 1)
  }

  lemma TakenNone(buffer: seq<Raw>)
    ensures Taken(buffer, 0) == [] && LeftOver(buffer, 0) == buffer
  {
  }

  lemma TakenNext(buffer: seq<Raw>, n: nat)
    requires n > 0
    ensures buffer == [] ==> Taken(buffer, n) == [] && LeftOver(buffer, n) == []
    ensures buffer != [] && buffer[0] == Garbage("") ==> Taken(buffer, n) == [] && LeftOver(buffer, n) == buffer[1..]
    ensures buffer != [] && buffer[0] != Garbage("") ==>
              && Taken(buffer, n) == (if buffer[0].Garbage? then [] else [buffer[0]]) + Taken(buffer[1..], n - 1)
              && LeftOver(buffer, n) == LeftOver(buffer[1..], n - 1)
  {
  }

  lemma DrainedNone()
    ensures Drained([]) == Consumed
  {
  }

  /** The list after an undisturbed call, given the database's next replies. */
  function ProcessedBuffer(buffer: seq<Raw>, size: nat, sql: seq<Reply>): seq<Raw> {
    var taken := Taken(buffer, size);
    if taken == [] || NextReply(sql).Fault? then LeftOver(buffer, size)
    else if !AllBindable(taken) || NextReply(Remaining(sql)).Fault? then LeftOver(buffer, size) + taken
    else LeftOver(buffer, size)
  }

  /** What the call adds to the table. A lost reply to the INSERT does not undo it. */
  function ProcessedRows(buffer: seq<Raw>, size: nat, sql: seq<Reply>): seq<Raw> {
    var taken, insert := Taken(buffer, size), NextReply(Remaining(sql));
    if NextReply(sql).Done? && AllBindable(taken) && (insert.Done? || insert.applied) then taken else []
  }

  class AnalyticsService {
    const world: ClickWorld

    constructor (world: ClickWorld)
      ensures this.world == world
    {
      this.world := world;
    }

    /** Count a click and buffer its event. Every error ends in the catch block. */
    method TrackClick(urlId: string, ip: string, userAgent: string, referer: string, timestamp: string)
      requires world.Valid()
      modifies world
      ensures world.Valid() && old(world.history) <= world.history && world.clients == old(world.clients)
      ensures !world.cfg.checks.isIP(ip) ==> world.state == old(world.state)
      ensures world.cfg.checks.isIP(ip) ==>
                |world.state.procs| > |old(world.state).procs| && world.state.procs[|old(world.state).procs|] == Tracked
      ensures old(world.Alone()) && world.cfg.checks.isIP(ip) ==>
                var s, e := old(world.state).stores, Captured(urlId, timestamp, ip, userAgent, referer);
                && world.Alone()
                && world.state.stores
                   == if |s.buffer| >= MAX_BUFFER_SIZE then s
                      else PushClick(s.(counters := CountVisit(CountClick(s.counters, urlId), e, s.today)), e)
      ensures old(world.Alone()) && world.cfg.checks.isIP(ip) ==>
                var buffer := old(world.state).stores.buffer;
                world.state.stores.buffer
                == buffer + if |buffer| >= 10000 then [] else [ClickText(urlId, timestamp, ip, userAgent, referer)]
    {
      hide Run, Step, Init, Payload, ServiceSanitize;
      if !world.cfg.checks.isIP(ip) {
        return;
      }
      PayloadIsClickText(urlId, timestamp, ip, userAgent, referer);
      hide ClickText;
      var sanitizedUA, sanitizedReferer := ServiceSanitize(userAgent), ServiceSanitize(referer);
      ghost var e := Captured(urlId, timestamp, ip, userAgent, referer);
      var me := |world.state.procs|;
      world.Act(Arrive(urlId, timestamp, ip, userAgent, referer));
      var reply, bufferSize := world.Llen(me);
      if reply.Fault? || bufferSize >= MAX_BUFFER_SIZE {
        return;
      }
      reply := world.Hincrby(me, urlId);
      if reply.Fault? {
        return;
      }
      reply := world.Sadd(me, urlId, Fingerprint(ip, sanitizedUA));
      if reply.Fault? {
        return;
      }
      reply := world.Rpush(me, Payload(Event(urlId, timestamp, ip, sanitizedUA, sanitizedReferer)));
    }

    /** Pop up to `batchSize` events one by one and insert them; on any insert error push
        them all back. `thrown` tells whether the call rejects. */
    method ProcessBufferedClicks(batchSize: nat) returns (thrown: bool)
      requires world.Valid()
      modifies world
      ensures world.Valid() && old(world.history) <= world.history && world.clients == old(world.clients)
      ensures |world.state.procs| > |old(world.state).procs|
      ensures world.state.procs[|old(world.state).procs|] == Consumed
      ensures old(world.Alone()) ==>
                var s, sql := old(world.state).stores, old(world.sqlReplies);
                && world.Alone()
                && world.state.stores.buffer == ProcessedBuffer(s.buffer, batchSize, sql)
                && world.state.stores.table == s.table + ProcessedRows(s.buffer, batchSize, sql)
                && (thrown <==> Taken(s.buffer, batchSize) != []
                                && (NextReply(sql).Fault? || !AllBindable(Taken(s.buffer, batchSize))
                                    || NextReply(Remaining(sql)).Fault?))
    {
      hide Run, Step, Init, AllBindable, Taken, LeftOver;
      var me := |world.state.procs|;
      world.Act(Consume(batchSize));
      var failed, rawEvents := DrainBuffer(me, batchSize);
      if failed {
        return true;
      }
      if |rawEvents| == 0 {
        return false;
      }
      var reply := world.Connect(me);
      if reply.Fault? {
        return true;
      }
      thrown := InsertOrRequeue(me, rawEvents);
      world.Release();
    }

    /** The try and catch blocks: any error pushes the whole batch back and is thrown on. */
    method InsertOrRequeue(me: nat, rawEvents: seq<Raw>) returns (thrown: bool)
      requires world.Valid() && me < |world.state.procs| && rawEvents != []
      requires world.state.procs[me] == Inserting(Service, rawEvents)
      modifies world
      ensures world.Valid() && old(world.history) <= world.history && world.clients == old(world.clients)
      ensures me < |world.state.procs| && world.state.procs[me] == Consumed
      ensures old(world.Alone()) ==>
                var s, insert := old(world.state).stores, NextReply(old(world.sqlReplies));
                && world.Alone()
                && (thrown <==> !AllBindable(rawEvents) || insert.Fault?)
                && world.state.stores.buffer == s.buffer + (if thrown then rawEvents else [])
                && world.state.stores.table
                   == s.table + if AllBindable(rawEvents) && (insert.Done? || insert.applied) then rawEvents else []
    {
      hide Run, Step, Init, AllBindable;
      var inserted := InsertBatch(me, rawEvents);
      if !inserted {
        Requeue(me, rawEvents);
      }
      return !inserted;
    }

    method DrainBuffer(me: nat, batchSize: nat) returns (failed: bool, rawEvents: seq<Raw>)
      requires world.Valid() && me < |world.state.procs|
      requires world.state.procs[me] == if batchSize == 0 then Consumed else Draining(batchSize, [])
      modifies world
      ensures world.Valid() && old(world.history) <= world.history && world.clients == old(world.clients)
      ensures me < |world.state.procs|
      ensures world.state.procs[me] == if failed then Consumed else Drained(rawEvents)
      ensures old(world.Alone()) ==>
                && world.Alone() && !failed && world.sqlReplies == old(world.sqlReplies)
                && world.state.stores.table == old(world.state).stores.table
                && rawEvents == Taken(old(world.state).stores.buffer, batchSize)
                && world.state.stores.buffer == LeftOver(old(world.state).stores.buffer, batchSize)
    {
      DrainedNone();
      hide Run, Step, Init, Taken, LeftOver, Drained;
      ghost var buffer := world.state.stores.buffer;
      rawEvents := [];
      for i := 0 to batchSize
        invariant world.Valid() && old(world.history) <= world.history && world.clients == old(world.clients)
        invariant me < |world.state.procs|
        invariant world.state.procs[me] == if i == batchSize then Drained(rawEvents)
                                           else Draining(batchSize - i, rawEvents)
        invariant old(world.Alone()) ==>
                    && world.Alone() && world.sqlReplies == old(world.sqlReplies)
                    && world.state.stores.table == old(world.state).stores.table
                    && Taken(buffer, batchSize) == rawEvents + Taken(world.state.stores.buffer, batchSize - i)
                    && LeftOver(buffer, batchSize) == LeftOver(world.state.stores.buffer, batchSize - i)
      {
        TakenNext(world.state.stores.buffer, batchSize - i);
        var reply, raw := world.DrainOne(me);
        if reply.Fault? {
          return true, rawEvents;
        }
        if raw.None? || raw.value == Garbage("") {
          return false, rawEvents;
        }
        if raw.value.Encoded? {
          rawEvents := rawEvents + [raw.value];
        }
      }
      TakenNone(world.state.stores.buffer);
      return false, rawEvents;
    }

    /** False when the INSERT fails, or cannot even be built. */
    method InsertBatch(me: nat, rawEvents: seq<Raw>) returns (inserted: bool)
      requires world.Valid() && me < |world.state.procs| && world.state.procs[me] == Inserting(Service, rawEvents)
      modifies world
      ensures world.Valid() && old(world.history) <= world.history && world.clients == old(world.clients)
      ensures me < |world.state.procs|
      ensures inserted ==> world.state.procs[me] == Consumed
      ensures !inserted ==> exists stored :: world.state.procs[me] == Requeueing(Service, rawEvents, stored)
      ensures old(world.Alone()) ==>
                && world.Alone() && world.state.stores.buffer == old(world.state).stores.buffer
                && (inserted <==> AllBindable(rawEvents) && NextReply(old(world.sqlReplies)).Done?)
                && var insert := NextReply(old(world.sqlReplies));
                   world.state.stores.table
                   == old(world.state).stores.table
                      + if AllBindable(rawEvents) && (insert.Done? || insert.applied) then rawEvents else []
    {
      hide Run, Step, AllBindable, Bind, InsertQuery, Flatten;
      if !AllBindable(rawEvents) {
        world.FailToBind(me);
        return false;
      }
      BulkInsertBindsRows(ServiceRows(rawEvents));
      var reply := world.InsertAll(me, InsertQuery(|rawEvents|), Flatten(ServiceRows(rawEvents)));
      return reply.Done?;
    }

    method Requeue(me: nat, rawEvents: seq<Raw>)
      requires world.Valid() && me < |world.state.procs| && rawEvents != []
      requires exists stored :: world.state.procs[me] == Requeueing(Service, rawEvents, stored)
      modifies world
      ensures world.Valid() && old(world.history) <= world.history && world.clients == old(world.clients)
      ensures me < |world.state.procs| && world.state.procs[me] == Consumed
      ensures old(world.Alone()) ==>
                && world.Alone() && world.state.stores.buffer == old(world.state).stores.buffer + rawEvents
                && world.state.stores.table == old(world.state).stores.table
    {
      hide Run, Step;
      ghost var stored := world.state.procs[me].stored;
      for i := 0 to |rawEvents|
        invariant world.Valid() && old(world.history) <= world.history && world.clients == old(world.clients)
        invariant me < |world.state.procs|
        invariant world.state.procs[me] == if i == |rawEvents| then Consumed
                                           else Requeueing(Service, rawEvents[i..], stored)
        invariant old(world.Alone()) ==>
                    && world.Alone() && world.state.stores.buffer == old(world.state).stores.buffer + rawEvents[..i]
                    && world.state.stores.table == old(world.state).stores.table
      {
        assert rawEvents[i..][1..] == rawEvents[i + 1..] && rawEvents[i..][0] == rawEvents[i];
        assert rawEvents[..i + 1] == rawEvents[..i] + [rawEvents[i]];
        var reply := world.PushBackNext(me, rawEvents[i]);
        if reply.Fault? {
          return;
        }
      }
      assert rawEvents[..|rawEvents|] == rawEvents;
    }
  }

  /******* What leaves the list *******/

  /** A call takes some copies of a parseable event and leaves the others. */
  lemma {:induction false} TakenAndLeft(buffer: seq<Raw>, size: nat, r: Raw)
    requires r.Encoded?
    ensures Count(Taken(buffer, size), r) + Count(LeftOver(buffer, size), r) == Count(buffer, r)
  {
    hide Count;
    CountNone(r);
    if size > 0 && buffer != [] {
      CountFirst(buffer, r);
      CountOther(buffer[0], r);
      if buffer[0] != Garbage("") {
        TakenAndLeft(buffer[1..], size - 1, r);
        CountConcat(if buffer[0].Garbage? then [] else [buffer[0]], Taken(buffer[1..], size - 1), r);
      }
    }
  }

  lemma CountOther(raw: Raw, r: Raw)
    ensures Count([raw], r) == if raw == r then 1 else 0
  {
    assert [raw][..0] == [];
  }

  lemma {:induction false} CountMember(s: seq<Raw>, r: Raw)
    ensures Count(s, r) > 0 <==> r in s
  {
    if s != [] {
      CountMember(s[..|s| - 1], r);
      assert s == s[..|s| - 1] + [s[|s| - 1]];
    }
  }

  /** Whatever else is in the list and however large the call: it removes a parseable event from
      the list exactly when it takes it and either gets no client or stores the batch. */
  lemma RemovedExactly(buffer: seq<Raw>, size: nat, sql: seq<Reply>, r: Raw)
    requires r.Encoded?
    ensures Count(ProcessedBuffer(buffer, size, sql), r) <= Count(buffer, r)
    ensures Count(ProcessedBuffer(buffer, size, sql), r) < Count(buffer, r)
       <==> r in Taken(buffer, size)
            && (NextReply(sql).Fault? || (AllBindable(Taken(buffer, size)) && NextReply(Remaining(sql)).Done?))
  {
    hide Count, Taken, LeftOver, AllBindable;
    TakenAndLeft(buffer, size, r);
    CountMember(Taken(buffer, size), r);
    CountConcat(LeftOver(buffer, size), Taken(buffer, size), r);
    CountNone(r);
  }

  /** Unlike the worker, the on-demand consumer never gets past a parseable event it cannot
      bind: as long as it is granted a client, a call leaves every copy of it in the list. */
  lemma UnbindableEventsReturn(buffer: seq<Raw>, size: nat, sql: seq<Reply>, r: Raw)
    requires r.Encoded? && !Bindable(r) && NextReply(sql).Done?
    ensures Count(ProcessedBuffer(buffer, size, sql), r) == Count(buffer, r)
  {
    hide Count, Taken, ProcessedBuffer, Bindable;
    RemovedExactly(buffer, size, sql, r);
    if r in Taken(buffer, size) {
      assert !AllBindable(Taken(buffer, size));
    }
  }

  /** One call: its size and the database's replies to it. */
  datatype CallScript = CallScript(size: nat, sql: seq<Reply>)

  function AfterCalls(buffer: seq<Raw>, calls: seq<CallScript>): seq<Raw> {
    if calls == [] then buffer
    else
      var last := calls[|calls| - 1];
      ProcessedBuffer(AfterCalls(buffer, calls[..|calls| - 1]), last.size, last.sql)
  }

  /** No series of such calls, of whatever sizes and with whatever replies, ever removes it. */
  lemma {:induction false} UnbindableForever(buffer: seq<Raw>, calls: seq<CallScript>, r: Raw)
    requires r.Encoded? && !Bindable(r) && forall i :: 0 <= i < |calls| ==> NextReply(calls[i].sql).Done?
    ensures Count(AfterCalls(buffer, calls), r) == Count(buffer, r)
  {
    hide Count, ProcessedBuffer, Bindable;
    if calls != [] {
      var n := |calls| - 1;
      UnbindableForever(buffer, calls[..n], r);
      UnbindableEventsReturn(AfterCalls(buffer, calls[..n]), calls[n].size, calls[n].sql, r);
    }
  }

  /** And a batch that takes it stores nothing at all. */
  lemma UnbindableBlocks(buffer: seq<Raw>, size: nat, sql: seq<Reply>, r: Raw)
    requires !Bindable(r) && r in Taken(buffer, size)
    ensures ProcessedRows(buffer, size, sql) == []
  {
    hide Taken, Bindable;
    assert !AllBindable(Taken(buffer, size));
  }
}
