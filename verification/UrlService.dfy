/**
 The URL service object: src/services/url/urlService.ts.

 Its two methods send the commands of one call of `UrlMachine` each, among calls of others,
 so the theorems about runs hold during and after every call.
 */
module UrlServices {
  import opened Environment
  import opened UrlMachine
  import opened UrlInvariants
  import opened UrlTheorems
  import Base62
  import Decimal

  /** The actions that process `me` takes part in. */
  predicate Moves(a: Action, me: nat) {
    a.Advance? && a.p == me
  }

  /** A history after a stretch of others' actions, when process `me` is held in place. */
  function Joined(history: seq<Action>, acts: seq<Action>, me: nat): seq<Action> {
    if acts == [] then history
    else
      var last := |acts| - 1;
      var before := Joined(history, acts[..last], me);
      if Moves(acts[last], me) then before else before + [acts[last]]
  }

  /** Nothing is left out but what would move `me`. */
  lemma JoinedExactly(history: seq<Action>, acts: seq<Action>, me: nat, a: Action)
    ensures Joined(history, [], me) == history
    ensures Joined(history, acts + [a], me)
         == (if (a.Advance? && a.p == me)
             then Joined(history, acts, me) else Joined(history, acts, me) + [a])
  {
    assert (acts + [a])[..|acts|] == acts;
  }

  /** A history after one command of `me`, met by the first stretch of the others' schedule. */
  function Extended(history: seq<Action>, others: seq<seq<Action>>, me: nat, reply: Reply): seq<Action> {
    (if others == [] then history else Joined(history, others[0], me)) + [Advance(me, reply)]
  }


  /** The database and Redis as one process sees them: the state is one that a run reaches,
      and before each command the others take the steps their schedule says. */
  class UrlWorld {
    const start: int
    var state: State
    ghost var history: seq<Action>
    var redisReplies: seq<Reply>
    var sqlReplies: seq<Reply>
    var others: seq<seq<Action>>

    ghost predicate Valid()
      reads this
    {
      state == Run(Init(start), history)
    }

    /** Nobody else acts, no statement fails, and the sequence has a value left. */
    predicate Calm()
      reads this
    {
      others == [] && sqlReplies == [] && state.stores.sequence < LAST_ID
    }

    constructor (start: int, redisReplies: seq<Reply>, sqlReplies: seq<Reply>, others: seq<seq<Action>>)
      ensures Valid() && state == Init(start)
      ensures Calm() <==> others == [] && sqlReplies == []
      ensures this.redisReplies == redisReplies && this.sqlReplies == sqlReplies && this.others == others
    {
      this.start := start;
      state := Init(start);
      history := [];
      this.redisReplies, this.sqlReplies, this.others := redisReplies, sqlReplies, others;
    }

    method Act(a: Action)
      requires Valid()
      modifies this`state, this`history
      ensures Valid() && state == Next(old(state), a) && history == old(history) + [a]
    {
      RunSnoc(Init(start), history, a);
      state := Next(state, a);
      history := history + [a];
    }

    /** One action of the others, left out if it would move process `me`. */
    method ActUnless(me: nat, a: Action)
      requires Valid() && me < |state.procs|
      modifies this`state, this`history
      ensures Valid() && me < |state.procs| && state.procs[me] == old(state).procs[me]
      ensures history == if Moves(a, me) then old(history) else old(history) + [a]
    {
      hide Step, Run;
      if !Moves(a, me) {
        Act(a);
      }
    }

    method Interfere(me: nat)
      requires Valid() && me < |state.procs|
      modifies this`state, this`history, this`others
      ensures Valid() && old(history) <= history
      ensures me < |state.procs| && state.procs[me] == old(state).procs[me]
      ensures old(others) == [] ==> others == [] && state == old(state) && history == old(history)
      ensures old(others) != [] ==>
                others == old(others)[1..] && history == Joined(old(history), old(others)[0], me)
    {
      hide Step, Run, Moves;
      if others == [] {
        return;
      }
      hide Joined;
      JoinedExactly(history, [], me, Advance(me, Done));
      var acts := others[0];
      others := others[1..];
      for i := 0 to |acts|
        invariant Valid() && old(history) <= history
        invariant me < |state.procs| && state.procs[me] == old(state).procs[me]
        invariant others == old(others)[1..]
        invariant history == Joined(old(history), acts[..i], me)
      {
        JoinedExactly(old(history), acts[..i], me, acts[i]);
        assert acts[..i + 1] == acts[..i] + [acts[i]];
        ActUnless(me, acts[i]);
      }
      assert acts[..|acts|] == acts;
    }

    method Redis(me: nat) returns (reply: Reply, before: Stores)
      requires Valid() && me < |state.procs|
      modifies this`state, this`history, this`others, this`redisReplies
      ensures Valid() && old(history) <= history && me < |state.procs|
      ensures Step(before, old(state).procs[me], reply) == Move(state.stores, state.procs[me])
      ensures reply == NextReply(old(redisReplies)) && redisReplies == Remaining(old(redisReplies))
      ensures old(others) == [] ==> others == [] && before == old(state).stores
      ensures history == Extended(old(history), old(others), me, reply)
    {
      hide Step;
      Interfere(me);
      reply, before := NextReply(redisReplies), state.stores;
      redisReplies := Remaining(redisReplies);
      Act(Advance(me, reply));
    }

    method Sql(me: nat) returns (reply: Reply, before: Stores)
      requires Valid() && me < |state.procs|
      modifies this`state, this`history, this`others, this`sqlReplies
      ensures Valid() && old(history) <= history && me < |state.procs|
      ensures Step(before, old(state).procs[me], reply) == Move(state.stores, state.procs[me])
      ensures reply == NextReply(old(sqlReplies)) && sqlReplies == Remaining(old(sqlReplies))
      ensures old(others) == [] ==> others == [] && before == old(state).stores
      ensures history == Extended(old(history), old(others), me, reply)
    {
      hide Step;
      Interfere(me);
      reply, before := NextReply(sqlReplies), state.stores;
      sqlReplies := Remaining(sqlReplies);
      Act(Advance(me, reply));
    }

    /** The next value of the sequence, or None when the statement fails. */
    method NextVal(me: nat) returns (id: Option<nat>)
      requires Valid() && me < |state.procs| && state.procs[me].Numbering?
      modifies this`state, this`history, this`others, this`sqlReplies
      ensures Valid() && old(history) <= history && me < |state.procs|
      ensures sqlReplies == Remaining(old(sqlReplies))
      ensures var ph := old(state).procs[me];
              state.procs[me] == if id.Some? then Inserting(id.value, ph.url, ph.owner) else Aborting(None, None)
      ensures old(others) == [] ==> others == []
      ensures old(Calm()) ==> id.Some?
    {
      var reply, before := Sql(me);
      id := if reply.Done? && before.sequence < LAST_ID then Some(before.sequence + 1) else None;
    }

    /** The INSERT, with its four parameters as the source passes them. It fails on a fault;
        a unique violation is impossible. */
    method Insert(me: nat, idText: string, alias: string, url: string, owner: Option<string>) returns (reply: Reply)
      requires Valid() && me < |state.procs| && state.procs[me].Inserting?
      requires idText == Decimal.Text(state.procs[me].id) && alias == Base62.Encode(state.procs[me].id)
      requires url == state.procs[me].url && owner == state.procs[me].owner
      modifies this`state, this`history, this`others, this`sqlReplies
      ensures Valid() && old(history) <= history && me < |state.procs|
      ensures reply == NextReply(old(sqlReplies)) && sqlReplies == Remaining(old(sqlReplies))
      ensures reply.Fault? ==> state.procs[me] == Aborting(Some(old(state).procs[me].id), None)
      ensures reply.Done? ==> state.procs[me].Committing?
                              && state.procs[me].row.(createdAt := 0)
                                 == Row(old(state).procs[me].id, alias, url, owner, 0)
      ensures old(others) == [] ==> others == []
    {
      hide Base62.Encode, Step;
      Interfere(me);
      reply := NextReply(sqlReplies);
      sqlReplies := Remaining(sqlReplies);
      Reachable(start, history);
      InsertNeverConflicts(state, me);
      InsertSucceeds(state.stores, state.procs[me], reply);
      Act(Advance(me, reply));
    }

    /** COMMIT, and ROLLBACK, and the release of the client. */
    method Commit(me: nat) returns (reply: Reply)
      requires Valid() && me < |state.procs| && state.procs[me].Committing?
      modifies this`state, this`history, this`others, this`sqlReplies
      ensures Valid() && old(history) <= history && me < |state.procs|
      ensures reply == NextReply(old(sqlReplies)) && sqlReplies == Remaining(old(sqlReplies))
      ensures reply.Done? ==> state.procs[me] == Warming(old(state).procs[me].row)
      ensures reply.Fault? ==> state.procs[me].Aborting?
      ensures old(others) == [] ==> others == []
    {
      var before;
      reply, before := Sql(me);
    }

    method Rollback(me: nat)
      requires Valid() && me < |state.procs| && state.procs[me].Aborting?
      modifies this`state, this`history, this`others, this`sqlReplies
      ensures Valid() && old(history) <= history && me < |state.procs|
      ensures state.procs[me] == Releasing(Threw(old(state).procs[me].given, old(state).procs[me].stored))
    {
      var _, _ := Sql(me);
    }

    method Release(me: nat)
      requires Valid() && me < |state.procs| && state.procs[me].Releasing?
      modifies this`state, this`history
      ensures Valid() && old(history) <= history && me < |state.procs|
      ensures state.procs[me] == Ended(old(state).procs[me].outcome)
      ensures state.stores == old(state).stores.(clients := old(state).stores.clients - 1)
    {
      Act(Advance(me, Done));
    }

    /** SET url:{alias} after COMMIT; only the creation time is the cache's own. */
    method Warm(me: nat, alias: string, record: UrlRecord) returns (reply: Reply)
      requires Valid() && me < |state.procs| && state.procs[me].Warming?
      requires alias == state.procs[me].row.alias
      requires record.(createdAt := 0) == WarmRecord(state.procs[me].row, 0)
      modifies this`state, this`history, this`others, this`redisReplies
      ensures Valid() && old(history) <= history && me < |state.procs|
      ensures var row := old(state).procs[me].row;
              state.procs[me] == if reply.Done? then Releasing(Returned(row)) else Aborting(Some(row.id), Some(row))
      ensures reply == NextReply(old(redisReplies))
      ensures reply.Done? ==>
                LiveEntry(state.stores, alias, record.(createdAt := state.stores.now))
                && state.stores.cache[alias].deadline == state.stores.now + 86400
    {
      hide CacheSet, Encode, LiveEntry;
      Interfere(me);
      ghost var row, before := state.procs[me].row, state.stores;
      SetLeavesEntry(before, alias, row, record);
      reply := NextReply(redisReplies);
      redisReplies := Remaining(redisReplies);
      Act(Advance(me, reply));
    }

    /** GET url:{alias}. */
    method Get(me: nat, alias: string) returns (reply: Reply, text: Option<Cached>)
      requires Valid() && me < |state.procs| && state.procs[me] == Reading(alias)
      modifies this`state, this`history, this`others, this`redisReplies
      ensures Valid() && old(history) <= history && me < |state.procs|
      ensures state.procs[me] == if reply.Done? && text.Some? && Decode(text.value).Some?
                                 then Found(alias, Decode(text.value).value) else Querying(alias)
      ensures reply == NextReply(old(redisReplies)) && redisReplies == Remaining(old(redisReplies))
      ensures old(others) == [] ==>
                others == [] && state.stores == old(state).stores && text == CacheGet(old(state).stores, alias)
    {
      hide Decode;
      var before;
      reply, before := Redis(me);
      text := CacheGet(before, alias);
    }

    /** The SELECT. */
    method Select(me: nat, alias: string) returns (reply: Reply, row: Option<Row>)
      requires Valid() && me < |state.procs| && state.procs[me] == Querying(alias)
      modifies this`state, this`history, this`others, this`sqlReplies
      ensures Valid() && old(history) <= history && me < |state.procs|
      ensures reply == NextReply(old(sqlReplies)) && sqlReplies == Remaining(old(sqlReplies))
      ensures state.procs[me] == if reply.Fault? then Broken(alias)
                                 else if row.None? then NotFound(alias) else Filling(alias, RowRecord(row.value))
      ensures old(others) == [] ==> others == [] && state.stores == old(state).stores
                                    && row == FindRow(old(state).stores.rows, alias)
    {
      hide FindRow;
      var before;
      reply, before := Sql(me);
      row := FindRow(before.rows, alias);
    }

    /** SET after a SELECT; its errors are swallowed. */
    method Fill(me: nat, alias: string, record: UrlRecord)
      requires Valid() && me < |state.procs| && state.procs[me] == Filling(alias, record)
      modifies this`state, this`history, this`others, this`redisReplies
      ensures Valid() && old(history) <= history && me < |state.procs|
      ensures state.procs[me] == Found(alias, record)
      ensures old(others) == [] ==> state.stores.rows == old(state).stores.rows
      ensures old(others) == [] && NextReply(old(redisReplies)).Done? ==>
                LiveEntry(state.stores, alias, record)
                && state.stores.cache[alias].deadline == state.stores.now + 86400
    {
      var _, before := Redis(me);
      SetLeavesEntry(before, alias, Row(0, "", "", None, 0), record);
    }
  }

  lemma InsertSucceeds(s: Stores, ph: Phase, reply: Reply)
    requires ph.Inserting? && !Conflicts(s.rows, ph.id, Base62.Encode(ph.id))
    ensures Step(s, ph, reply)
         == Move(s, if reply.Fault? then Aborting(Some(ph.id), None)
                    else Committing(Row(ph.id, Base62.Encode(ph.id), ph.url, ph.owner, s.now)))
  {
    hide Base62.Encode, Conflicts;
  }

  /** A live entry with this URL and owner, whatever its creation time. */
  ghost predicate LiveEntryOf(s: Stores, alias: string, url: string, owner: Option<string>) {
    exists record :: LiveEntry(s, alias, record)
                  && record.alias == alias && record.url == url && OwnerOf(record.owner) == owner
  }

  lemma EntryKept(s: Stores, t: Stores, alias: string, url: string, owner: Option<string>)
    requires LiveEntryOf(s, alias, url, owner) && t.cache == s.cache && t.now == s.now
    ensures LiveEntryOf(t, alias, url, owner)
  {
    hide Encode;
    var record :| LiveEntry(s, alias, record)
               && record.alias == alias && record.url == url && OwnerOf(record.owner) == owner;
    assert LiveEntry(t, alias, record);
  }

  /** The record holds just what some row of this alias holds. */
  ghost predicate FromTable(rows: seq<Row>, alias: string, record: UrlRecord) {
    exists row :: row in rows && row.alias == alias
               && record.id == row.id && record.alias == row.alias && record.url == row.url
               && record.createdAt == row.createdAt
               && record.owner == if row.owner.Some? then Owned(row.owner.value) else Null
  }

  lemma FromTableExactly(rows: seq<Row>, alias: string, record: UrlRecord)
    ensures FromTable(rows, alias, record) <==>
              (exists i :: && 0 <= i < |rows| && rows[i].alias == alias
                           && record == UrlRecord(rows[i].id, alias, rows[i].url,
                                                  if rows[i].owner.None? then Null else Owned(rows[i].owner.value),
                                                  rows[i].createdAt))
  {
  }

  lemma RowFromTable(rows: seq<Row>, alias: string)
    requires FindRow(rows, alias).Some?
    ensures FromTable(rows, alias, RowRecord(FindRow(rows, alias).value))
  {
    hide FindRow;
    FindRowFinds(rows, alias);
  }

  lemma ReadableExactly(s: Stores, alias: string)
    ensures forall record :: LiveEntry(s, alias, record) ==>
              CacheGet(s, alias).Some? && Decode(CacheGet(s, alias).value) == Some(record)
    ensures alias !in s.cache || s.cache[alias].deadline <= s.now || s.cache[alias].content == Corrupted ==>
              CacheGet(s, alias).None? || Decode(CacheGet(s, alias).value).None?
  {
    hide Encode, Decode;
    CorruptedUnreadable();
    forall record | LiveEntry(s, alias, record)
      ensures CacheGet(s, alias).Some? && Decode(CacheGet(s, alias).value) == Some(record)
    {
      DecodeOfEncode(record);
    }
  }

  class UrlService {
    const world: UrlWorld

    constructor (world: UrlWorld)
      ensures this.world == world
    {
      this.world := world;
    }

    /** Number, insert, commit and cache a URL; any error rolls back and is reported, and the
        client is released on every path. The call returns an alias exactly when its process
        ends that way, and then the alias looks up the URL and owner it was given. */
    method ShortenUrl(originalUrl: string, ownerId: Option<string>) returns (result: Result<string>)
      requires world.Valid()
      modifies world
      ensures world.Valid() && old(world.history) <= world.history
      ensures var me := |old(world.state).procs|;
              && me < |world.state.procs| && world.state.procs[me].Ended?
              && (result.Ok? <==> HasReturned(world.state.procs[me]))
              && (result.Ok? ==> world.state.procs[me].outcome.row.alias == result.value)
      ensures result.Ok? ==>
                var found := Lookup(world.state.stores.rows, result.value);
                found.Some? && found.value.url == originalUrl && found.value.owner == ownerId
                && found.value.alias == result.value
      ensures result.Ok? ==>
                LiveEntryOf(world.state.stores, result.value, originalUrl, ownerId)
                && world.state.stores.cache[result.value].deadline == world.state.stores.now + 86400
      ensures old(world.Calm() && world.redisReplies == []) ==> result.Ok?
    {
      hide Run, Step, Lookup, Base62.Encode, LiveEntryOf;
      var me := |world.state.procs|;
      world.Act(Call(Shorten(originalUrl, ownerId)));
      var reply := Connect(me);
      if reply.Fault? {
        return Error("connect");
      }
      result := StoreAndCache(me, originalUrl, ownerId);
    }

    /** The try, catch and finally blocks. */
    method StoreAndCache(me: nat, originalUrl: string, ownerId: Option<string>) returns (result: Result<string>)
      requires world.Valid() && me < |world.state.procs|
      requires world.state.procs[me] == Beginning(originalUrl, ownerId)
      modifies world
      ensures world.Valid() && old(world.history) <= world.history
      ensures me < |world.state.procs| && world.state.procs[me].Ended?
      ensures result.Ok? <==> HasReturned(world.state.procs[me])
      ensures result.Ok? ==> world.state.procs[me].outcome.row.alias == result.value
      ensures result.Ok? ==>
                var found := Lookup(world.state.stores.rows, result.value);
                found.Some? && found.value.url == originalUrl && found.value.owner == ownerId
                && found.value.alias == result.value
      ensures result.Ok? ==>
                LiveEntryOf(world.state.stores, result.value, originalUrl, ownerId)
                && world.state.stores.cache[result.value].deadline == world.state.stores.now + 86400
      ensures old(world.Calm() && world.redisReplies == []) ==> result.Ok?
    {
      hide Run, Step, Init, Lookup, Base62.Encode, LiveEntryOf;
      var stored := StoreRow(me, originalUrl, ownerId);
      if stored.Some? {
        var row := stored.value;
        var reply := WarmCache(me, row, originalUrl, ownerId);
        if reply.Done? {
          ghost var before := world.state.stores;
          world.Release(me);
          EntryKept(before, world.state.stores, row.alias, originalUrl, ownerId);
          StoredIsLookedUp(me, row);
          return Ok(row.alias);
        }
      }
      world.Rollback(me);
      world.Release(me);
      return Error("Internal server error during URL creation");
    }

    /** Cache the full record; a reply means the entry is there, for 24 hours. */
    method WarmCache(me: nat, row: Row, originalUrl: string, ownerId: Option<string>) returns (reply: Reply)
      requires world.Valid() && me < |world.state.procs| && world.state.procs[me] == Warming(row)
      requires row.url == originalUrl && row.owner == ownerId
      modifies world
      ensures world.Valid() && old(world.history) <= world.history && me < |world.state.procs|
      ensures world.state.procs[me]
           == if reply.Done? then Releasing(Returned(row)) else Aborting(Some(row.id), Some(row))
      ensures reply == NextReply(old(world.redisReplies))
      ensures reply.Done? ==>
                LiveEntryOf(world.state.stores, row.alias, originalUrl, ownerId)
                && world.state.stores.cache[row.alias].deadline == world.state.stores.now + 86400
    {
      hide Run, Step, Encode;
      var record := UrlRecord(row.id, row.alias, originalUrl,
                              if ownerId.Some? then Owned(ownerId.value) else Undefined, 0);
      reply := world.Warm(me, row.alias, record);
      assert reply.Done? ==> LiveEntry(world.state.stores, row.alias, record.(createdAt := world.state.stores.now));
    }

    lemma StoredIsLookedUp(me: nat, row: Row)
      requires world.Valid() && me < |world.state.procs| && StoredRow(world.state.procs[me]) == Some(row)
      ensures Lookup(world.state.stores.rows, row.alias) == Some(EntryOfRow(row))
    {
      hide Run, Lookup, Base62.Encode;
      Reachable(world.start, world.history);
      assert CallOk(world.state.stores, world.state.procs[me]);
      RowIsLookedUp(world.state.stores, row);
    }

    method Connect(me: nat) returns (reply: Reply)
      requires world.Valid() && me < |world.state.procs| && world.state.procs[me].Connecting?
      modifies world
      ensures world.Valid() && old(world.history) <= world.history && me < |world.state.procs|
      ensures world.redisReplies == old(world.redisReplies)
      ensures reply == NextReply(old(world.sqlReplies)) && world.sqlReplies == Remaining(old(world.sqlReplies))
      ensures var ph := old(world.state).procs[me];
              world.state.procs[me] == if reply.Done? then Beginning(ph.url, ph.owner) else Ended(Threw(None, None))
      ensures old(world.others) == [] ==>
                world.others == [] && world.state.stores.sequence == old(world.state).stores.sequence
    {
      var before;
      reply, before := world.Sql(me);
    }

    /** BEGIN, nextval, INSERT, COMMIT: the committed row, or None after the first error. */
    method StoreRow(me: nat, originalUrl: string, ownerId: Option<string>) returns (stored: Option<Row>)
      requires world.Valid() && me < |world.state.procs|
      requires world.state.procs[me] == Beginning(originalUrl, ownerId)
      modifies world
      ensures world.Valid() && old(world.history) <= world.history && me < |world.state.procs|
      ensures world.redisReplies == old(world.redisReplies)
      ensures stored.None? ==> world.state.procs[me].Aborting?
      ensures stored.Some? ==> world.state.procs[me] == Warming(stored.value)
                               && stored.value.url == originalUrl && stored.value.owner == ownerId
      ensures old(world.Calm()) ==> stored.Some?
    {
      hide Run, Base62.Encode;
      var reply, before := world.Sql(me);
      if reply.Fault? {
        return None;
      }
      hide Step;
      var id := world.NextVal(me);
      if id.None? {
        return None;
      }
      var alias := Base62.GenerateAlias(id.value);
      reply := world.Insert(me, Decimal.Text(id.value), alias.value, originalUrl, ownerId);
      if reply.Fault? {
        return None;
      }
      var row := world.state.procs[me].row;
      reply := world.Commit(me);
      return if reply.Done? then Some(row) else None;
    }

    /** Read through the cache. Redis errors and unreadable entries fall back to the table,
        so the call throws only when the SELECT does; a record it returns agrees with the
        table; undisturbed, so does a null. */
    method ResolveUrl(alias: string) returns (result: Result<Option<UrlRecord>>)
      requires world.Valid()
      modifies world
      ensures world.Valid() && old(world.history) <= world.history
      ensures var me := |old(world.state).procs|;
              && me < |world.state.procs|
              && world.state.procs[me] == match result
                                          case Error(_) => Broken(alias)
                                          case Ok(None) => NotFound(alias)
                                          case Ok(Some(record)) => Found(alias, record)
      ensures result.Ok? && result.value.Some? ==>
                Lookup(world.state.stores.rows, alias) == Some(EntryOfRecord(result.value.value))
      ensures old(world.others) == [] && result == Ok(None) ==> Lookup(old(world.state).stores.rows, alias) == None
      ensures NextReply(old(world.sqlReplies)).Done? ==> result.Ok?
      ensures old(world.others) == [] && NextReply(old(world.redisReplies)).Done? ==>
                forall record :: LiveEntry(old(world.state).stores, alias, record) ==>
                  result == Ok(Some(record)) && world.sqlReplies == old(world.sqlReplies)
      ensures old(world.others) == []
              && (NextReply(old(world.redisReplies)).Fault?
                  || var s := old(world.state).stores;
                     alias !in s.cache || s.cache[alias].deadline <= s.now || s.cache[alias].content == Corrupted) ==>
                && world.sqlReplies == Remaining(old(world.sqlReplies))
                && (result.Ok? <==> NextReply(old(world.sqlReplies)).Done?)
                && (result.Ok? && result.value.Some? ==>
                      FromTable(old(world.state).stores.rows, alias, result.value.value)
                      && (NextReply(Remaining(old(world.redisReplies))).Done? ==>
                            LiveEntry(world.state.stores, alias, result.value.value)
                            && world.state.stores.cache[alias].deadline == world.state.stores.now + 86400))
    {
      hide Run, Step, FindRow, Decode, Backed, LiveEntry, CacheGet, FromTable, Lookup;
      ReadableExactly(world.state.stores, alias);
      var me := |world.state.procs|;
      world.Act(Call(Resolve(alias)));
      var reply, cachedData := world.Get(me, alias);
      if reply.Done? && cachedData.Some? && Decode(cachedData.value).Some? {
        FoundAgrees(me, alias);
        return Ok(Some(Decode(cachedData.value).value));
      }
      result := QueryTable(me, alias);
    }

    /** The SELECT, and the SET that fills the cache, whose errors are swallowed. */
    method QueryTable(me: nat, alias: string) returns (result: Result<Option<UrlRecord>>)
      requires world.Valid() && me < |world.state.procs| && world.state.procs[me] == Querying(alias)
      modifies world
      ensures world.Valid() && old(world.history) <= world.history && me < |world.state.procs|
      ensures world.state.procs[me] == match result
                                       case Error(_) => Broken(alias)
                                       case Ok(None) => NotFound(alias)
                                       case Ok(Some(record)) => Found(alias, record)
      ensures result.Ok? && result.value.Some? ==>
                Lookup(world.state.stores.rows, alias) == Some(EntryOfRecord(result.value.value))
      ensures result.Ok? <==> NextReply(old(world.sqlReplies)).Done?
      ensures world.sqlReplies == Remaining(old(world.sqlReplies))
      ensures old(world.others) == [] && result == Ok(None) ==> Lookup(old(world.state).stores.rows, alias) == None
      ensures old(world.others) == [] && result.Ok? && result.value.Some? ==>
                && FromTable(old(world.state).stores.rows, alias, result.value.value)
                && (NextReply(old(world.redisReplies)).Done? ==>
                      LiveEntry(world.state.stores, alias, result.value.value)
                      && world.state.stores.cache[alias].deadline == world.state.stores.now + 86400)
    {
      hide Run, Step, FindRow, Decode, Backed, LiveEntry, FromTable;
      var reply, row := world.Select(me, alias);
      if reply.Fault? {
        return Error("Internal server error during resolution");
      }
      if row.None? {
        return Ok(None);
      }
      var record := RowRecord(row.value);
      if old(world.others) == [] {
        RowFromTable(old(world.state).stores.rows, alias);
      }
      world.Fill(me, alias, record);
      FoundAgrees(me, alias);
      return Ok(Some(record));
    }

    lemma FoundAgrees(me: nat, alias: string)
      requires world.Valid() && me < |world.state.procs| && world.state.procs[me].Found?
      requires world.state.procs[me].alias == alias
      ensures Lookup(world.state.stores.rows, alias) == Some(EntryOfRecord(world.state.procs[me].record))
    {
      hide Run, Lookup, Backed, TableOk, CacheOk;
      Reachable(world.start, world.history);
      assert CallOk(world.state.stores, world.state.procs[me]);
      BackedIsLookedUp(world.state.stores, alias, world.state.procs[me].record);
    }
  }
}
