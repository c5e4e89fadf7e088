/**
 The URL service as a step system: any number of concurrent `shortenUrl` and `resolveUrl`
 calls over a sequence, a table of committed rows and an expiring cache. Each SQL statement
 and each Redis command is one step and may fail before or after it took effect; time
 passes and cache entries get corrupted at any moment. As in the click pipeline, an action
 that does not fit changes nothing, so every sequence of actions is a run.
 (src/services/url/urlService.ts:36-140)
 */
module UrlMachine {
  import opened Environment
  import Base62
  import Decimal

  /** 24 hours in seconds. */
  const CACHE_TTL: nat := 86400

  /** The largest value of a BIGSERIAL sequence. */
  const LAST_ID: nat := Base62.BIGINT_LIMIT - 1

  datatype Row = Row(id: nat, alias: string, url: string, owner: Option<string>, createdAt: int)

  /** `owner_id` of a record in memory, and in JSON, where undefined means no such key. */
  datatype Owner = Undefined | Null | Owned(text: string)

  datatype UrlRecord = UrlRecord(id: nat, alias: string, url: string, owner: Owner, createdAt: int)

  /** A cached string: JSON of a record, its id as decimal text, or anything that does not
      read back as one. */
  datatype Cached = Json(id: string, alias: string, url: string, owner: Owner, createdAt: int) | Corrupted

  datatype Slot = Slot(content: Cached, deadline: int)

  /** `JSON.stringify` with bigints as text, and the parse of a cache hit. */
  function Encode(record: UrlRecord): Cached {
    Json(Decimal.Text(record.id), record.alias, record.url, record.owner, record.createdAt)
  }

  function Decode(content: Cached): Option<UrlRecord> {
    match content
    case Corrupted => None
    case Json(id, alias, url, owner, createdAt) =>
      match Decimal.Parse(id)
      case None => None
      case Some(n) => Some(UrlRecord(n, alias, url, owner, createdAt))
  }

  lemma DecodeOfEncode(record: UrlRecord)
    ensures Decode(Encode(record)) == Some(record)
  {
    Decimal.ParseOfText(record.id);
  }

  datatype Request = Shorten(url: string, owner: Option<string>) | Resolve(alias: string)

  /** How a `shortenUrl` call ends: it returns its row's alias, or it throws, with the id it
      was given and the row it has nevertheless committed. */
  datatype Outcome = Returned(row: Row) | Threw(given: Option<nat>, stored: Option<Row>)

  datatype Phase =
    // shortenUrl
    | Connecting(url: string, owner: Option<string>)           // pool.connect
    | Beginning(url: string, owner: Option<string>)            // BEGIN
    | Numbering(url: string, owner: Option<string>)            // nextval
    | Inserting(id: nat, url: string, owner: Option<string>)   // INSERT
    | Committing(row: Row)                                     // COMMIT
    | Warming(row: Row)                                        // SET
    | Aborting(given: Option<nat>, stored: Option<Row>)           // ROLLBACK
    | Releasing(outcome: Outcome)                              // client.release
    | Ended(outcome: Outcome)
    // resolveUrl
    | Reading(alias: string)                                   // GET
    | Querying(alias: string)                                  // SELECT
    | Filling(alias: string, record: UrlRecord)                // SET
    | Found(alias: string, record: UrlRecord)
    | NotFound(alias: string)
    | Broken(alias: string)

  /** The last id handed out, the committed rows in commit order, the cache, the clock, and
      the pool clients checked out. */
  datatype Stores = Stores(sequence: nat, rows: seq<Row>, cache: map<string, Slot>, now: int, clients: int)

  /** `requests[p]` is what process p was called with, `authors[i]` the process that
      committed row i. */
  datatype State = State(stores: Stores, requests: seq<Request>, procs: seq<Phase>, authors: seq<nat>)

  datatype Move = Move(stores: Stores, phase: Phase)

  datatype Action =
    | Call(request: Request)
    | Advance(p: nat, reply: Reply)
    | Pass(seconds: nat)
    | Corrupt(alias: string, deadline: int)

  function Init(now: int): State {
    State(Stores(0, [], map[], now, 0), [], [], [])
  }

  function Start(request: Request): Phase {
    match request
    case Shorten(url, owner) => Connecting(url, owner)
    case Resolve(alias) => Reading(alias)
  }

  /******* Table and cache *******/

  /** `SELECT ... WHERE alias = $1 LIMIT 1`. */
  function FindRow(rows: seq<Row>, alias: string): Option<Row> {
    if rows == [] then None
    else if rows[0].alias == alias then Some(rows[0])
    else FindRow(rows[1..], alias)
  }

  /** The primary key and the unique index on alias. */
  predicate Conflicts(rows: seq<Row>, id: nat, alias: string) {
    exists i :: 0 <= i < |rows| && (rows[i].id == id || rows[i].alias == alias)
  }

  function CacheSet(s: Stores, alias: string, record: UrlRecord): Stores {
    s.(cache := s.cache[alias := Slot(Encode(record), s.now + CACHE_TTL)])
  }

  /** GET: the text of a live slot. */
  function CacheGet(s: Stores, alias: string): Option<Cached> {
    if alias in s.cache && s.now < s.cache[alias].deadline then Some(s.cache[alias].content) else None
  }

  /** The record `shortenUrl` warms the cache with; its creation time is approximate. */
  function WarmRecord(row: Row, now: int): UrlRecord {
    UrlRecord(row.id, row.alias, row.url, if row.owner.Some? then Owned(row.owner.value) else Undefined, now)
  }

  /** The record `resolveUrl` builds from a row; a NULL owner arrives as null. */
  function RowRecord(row: Row): UrlRecord {
    UrlRecord(row.id, row.alias, row.url, if row.owner.Some? then Owned(row.owner.value) else Null, row.createdAt)
  }

  /******* shortenUrl *******/

  function ConnectStep(s: Stores, url: string, owner: Option<string>, reply: Reply): Move {
    if reply.Done? then Move(s.(clients := s.clients + 1), Beginning(url, owner))
    else Move(s, Ended(Threw(None, None)))
  }

  function BeginStep(s: Stores, url: string, owner: Option<string>, reply: Reply): Move {
    Move(s, if reply.Done? then Numbering(url, owner) else Aborting(None, None))
  }

  /** nextval never goes back, not even when the transaction does; at its end it fails. */
  function NumberStep(s: Stores, url: string, owner: Option<string>, reply: Reply): Move {
    if s.sequence >= LAST_ID || (reply.Fault? && !reply.applied) then Move(s, Aborting(None, None))
    else
      Move(s.(sequence := s.sequence + 1),
           if reply.Done? then Inserting(s.sequence + 1, url, owner) else Aborting(None, None))
  }

  function InsertStep(s: Stores, id: nat, url: string, owner: Option<string>, reply: Reply): Move {
    if reply.Fault? || Conflicts(s.rows, id, Base62.Encode(id)) then Move(s, Aborting(Some(id), None))
    else Move(s, Committing(Row(id, Base62.Encode(id), url, owner, s.now)))
  }

  function CommitStep(s: Stores, row: Row, reply: Reply): Move {
    var stored := s.(rows := s.rows + [row]);
    if reply.Done? then Move(stored, Warming(row))
    else if reply.applied then Move(stored, Aborting(Some(row.id), Some(row)))
    else Move(s, Aborting(Some(row.id), None))
  }

  function WarmStep(s: Stores, row: Row, reply: Reply): Move {
    var warmed := CacheSet(s, row.alias, WarmRecord(row, s.now));
    if reply.Done? then Move(warmed, Releasing(Returned(row)))
    else Move(if reply.applied then warmed else s, Aborting(Some(row.id), Some(row)))
  }

  /** ROLLBACK, answered or not. After COMMIT it undoes nothing. */
  function AbortStep(s: Stores, given: Option<nat>, stored: Option<Row>): Move {
    Move(s, Releasing(Threw(given, stored)))
  }

  /** The finally block. */
  function ReleaseStep(s: Stores, outcome: Outcome): Move {
    Move(s.(clients := s.clients - 1), Ended(outcome))
  }

  /******* resolveUrl *******/

  function ReadStep(s: Stores, alias: string, reply: Reply): Move {
    var hit := CacheGet(s, alias);
    Move(s, if reply.Done? && hit.Some? && Decode(hit.value).Some? then Found(alias, Decode(hit.value).value)
            else Querying(alias))
  }

  function QueryStep(s: Stores, alias: string, reply: Reply): Move {
    var row := FindRow(s.rows, alias);
    Move(s, if reply.Fault? then Broken(alias)
            else if row.None? then NotFound(alias)
            else Filling(alias, RowRecord(row.value)))
  }

  function FillStep(s: Stores, alias: string, record: UrlRecord, reply: Reply): Move {
    Move(if reply.Done? || reply.applied then CacheSet(s, alias, record) else s, Found(alias, record))
  }

  /******* The system *******/

  function Step(s: Stores, ph: Phase, reply: Reply): Move {
    match ph
    case Connecting(url, owner) => ConnectStep(s, url, owner, reply)
    case Beginning(url, owner) => BeginStep(s, url, owner, reply)
    case Numbering(url, owner) => NumberStep(s, url, owner, reply)
    case Inserting(id, url, owner) => InsertStep(s, id, url, owner, reply)
    case Committing(row) => CommitStep(s, row, reply)
    case Warming(row) => WarmStep(s, row, reply)
    case Aborting(given, stored) => AbortStep(s, given, stored)
    case Releasing(outcome) => ReleaseStep(s, outcome)
    case Reading(alias) => ReadStep(s, alias, reply)
    case Querying(alias) => QueryStep(s, alias, reply)
    case Filling(alias, record) => FillStep(s, alias, record, reply)
    case _ => Move(s, ph)
  }

  function Next(s: State, a: Action): State {
    match a
    case Call(request) => s.(requests := s.requests + [request], procs := s.procs + [Start(request)])
    case Advance(p, reply) =>
      if p < |s.procs| then
        var m := Step(s.stores, s.procs[p], reply);
        State(m.stores, s.requests, s.procs[p := m.phase],
              if |m.stores.rows| > |s.stores.rows| then s.authors + [p] else s.authors)
      else s
    case Pass(seconds) => s.(stores := s.stores.(now := s.stores.now + seconds))
    case Corrupt(alias, deadline) =>
      s.(stores := s.stores.(cache := s.stores.cache[alias := Slot(Corrupted, deadline)]))
  }

  function Run(s: State, acts: seq<Action>): State {
    if acts == [] then s else Next(Run(s, acts[..|acts| - 1]), acts[|acts| - 1])
  }

  lemma RunSnoc(s: State, acts: seq<Action>, a: Action)
    ensures Run(s, acts + [a]) == Next(Run(s, acts), a)
  {
    assert (acts + [a])[..|acts|] == acts;
  }

  lemma {:induction false} RunConcat(s: State, acts: seq<Action>, more: seq<Action>)
    ensures Run(s, acts + more) == Run(Run(s, acts), more)
  {
    if more == [] {
      assert acts + more == acts;
    } else {
      RunConcat(s, acts, more[..|more| - 1]);
      assert (acts + more)[..|acts + more| - 1] == acts + more[..|more| - 1];
    }
  }
}
