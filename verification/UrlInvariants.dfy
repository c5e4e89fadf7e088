/**
 What every reachable state of the URL service keeps: identifiers and aliases are never
 handed out twice, every row has one author, every readable cache entry agrees with a
 committed row, and every pool client is accounted for.
 */
module UrlInvariants {
  import opened Environment
  import opened UrlMachine
  import Base62

  function OutcomeId(outcome: Outcome): Option<nat> {
    if outcome.Returned? then Some(outcome.row.id) else outcome.given
  }

  function OutcomeRow(outcome: Outcome): Option<Row> {
    if outcome.Returned? then Some(outcome.row) else outcome.stored
  }

  /** The id a call was given by the sequence. */
  function IdOf(ph: Phase): Option<nat> {
    match ph
    case Inserting(id, _, _) => Some(id)
    case Committing(row) => Some(row.id)
    case Warming(row) => Some(row.id)
    case Aborting(given, _) => given
    case Releasing(outcome) => OutcomeId(outcome)
    case Ended(outcome) => OutcomeId(outcome)
    case _ => None
  }

  /** The row a call has committed. */
  function StoredRow(ph: Phase): Option<Row> {
    match ph
    case Warming(row) => Some(row)
    case Aborting(_, stored) => stored
    case Releasing(outcome) => OutcomeRow(outcome)
    case Ended(outcome) => OutcomeRow(outcome)
    case _ => None
  }

  /** 1 for a call that has a pool client checked out. */
  function HoldsClient(ph: Phase): nat {
    if ph.Beginning? || ph.Numbering? || ph.Inserting? || ph.Committing? || ph.Warming? || ph.Aborting?
       || ph.Releasing?
    then 1 else 0
  }

  function OwnerOf(owner: Owner): Option<string> {
    if owner.Owned? then Some(owner.text) else None
  }

  /** A record and a row say the same about id, alias, URL and owner. */
  predicate Agrees(record: UrlRecord, row: Row) {
    record.id == row.id && record.alias == row.alias && record.url == row.url && OwnerOf(record.owner) == row.owner
  }

  /** The record of an alias agrees with a committed row of that alias. */
  ghost predicate Backed(rows: seq<Row>, alias: string, record: UrlRecord) {
    exists i :: 0 <= i < |rows| && rows[i].alias == alias && Agrees(record, rows[i])
  }

  predicate OutcomeFits(request: Request, outcome: Outcome) {
    && request.Shorten?
    && var row := OutcomeRow(outcome);
       row.Some? ==> OutcomeId(outcome) == Some(row.value.id) && request == Shorten(row.value.url, row.value.owner)
  }

  /** A call's phase fits what it was called with. */
  predicate Answers(request: Request, ph: Phase) {
    match ph
    case Connecting(url, owner) => request == Shorten(url, owner)
    case Beginning(url, owner) => request == Shorten(url, owner)
    case Numbering(url, owner) => request == Shorten(url, owner)
    case Inserting(_, url, owner) => request == Shorten(url, owner)
    case Committing(row) => request == Shorten(row.url, row.owner)
    case Warming(row) => request == Shorten(row.url, row.owner)
    case Aborting(given, stored) => OutcomeFits(request, Threw(given, stored))
    case Releasing(outcome) => OutcomeFits(request, outcome)
    case Ended(outcome) => OutcomeFits(request, outcome)
    case Reading(alias) => request == Resolve(alias)
    case Querying(alias) => request == Resolve(alias)
    case Filling(alias, _) => request == Resolve(alias)
    case Found(alias, _) => request == Resolve(alias)
    case NotFound(alias) => request == Resolve(alias)
    case Broken(alias) => request == Resolve(alias)
  }

  /** What holds of one call, given the stores. */
  ghost predicate CallOk(s: Stores, ph: Phase) {
    && (IdOf(ph).Some? ==> 1 <= IdOf(ph).value <= s.sequence)
    && (ph.Committing? ==> ph.row.alias == Base62.Encode(ph.row.id))
    && (StoredRow(ph).Some? ==> StoredRow(ph).value in s.rows)
    && (IdOf(ph).Some? && StoredRow(ph).None? ==> forall i :: 0 <= i < |s.rows| ==> s.rows[i].id != IdOf(ph).value)
    && (ph.Filling? || ph.Found? ==> Backed(s.rows, ph.alias, ph.record))
  }

  ghost predicate TableOk(s: Stores) {
    && s.sequence <= LAST_ID
    && (forall i :: 0 <= i < |s.rows| ==>
          1 <= s.rows[i].id <= s.sequence && s.rows[i].alias == Base62.Encode(s.rows[i].id))
    && (forall i, j :: 0 <= i < j < |s.rows| ==> s.rows[i].id != s.rows[j].id)
  }

  /** Readable cache entries agree with the table and expire in time. */
  ghost predicate CacheOk(s: Stores) {
    forall alias :: alias in s.cache && Decode(s.cache[alias].content).Some? ==>
      Backed(s.rows, alias, Decode(s.cache[alias].content).value) && s.cache[alias].deadline <= s.now + CACHE_TTL
  }

  ghost predicate CallsOk(s: State) {
    && |s.requests| == |s.procs|
    && (forall p :: 0 <= p < |s.procs| ==> CallOk(s.stores, s.procs[p]) && Answers(s.requests[p], s.procs[p]))
    && (forall p, q :: 0 <= p < q < |s.procs| && IdOf(s.procs[p]).Some? ==> IdOf(s.procs[p]) != IdOf(s.procs[q]))
  }

  /** Every row has its author, and the author knows it. */
  ghost predicate AuthorsOk(s: State) {
    && |s.authors| == |s.stores.rows|
    && (forall i :: 0 <= i < |s.authors| ==>
          s.authors[i] < |s.procs| && StoredRow(s.procs[s.authors[i]]) == Some(s.stores.rows[i]))
  }

  ghost predicate Inv(s: State) {
    TableOk(s.stores) && CacheOk(s.stores) && CallsOk(s) && AuthorsOk(s)
  }

  /******* Every step keeps it *******/

  /** How a step may change what the others rely on: ids are only handed out, rows only
      appended, and only for the caller's own id. */
  ghost predicate Grows(s: Stores, ph: Phase, m: Move) {
    && s.sequence <= m.stores.sequence
    && s.now == m.stores.now
    && (m.stores.rows == s.rows
        || (ph.Committing? && m.stores.rows == s.rows + [ph.row] && StoredRow(m.phase) == Some(ph.row)))
    && (IdOf(m.phase) == IdOf(ph)
        || (ph.Numbering? && IdOf(m.phase) == Some(m.stores.sequence) && s.sequence < m.stores.sequence))
    && (StoredRow(ph).Some? ==> StoredRow(m.phase) == StoredRow(ph))
    && (StoredRow(m.phase) != StoredRow(ph) ==> ph.Committing? && m.stores.rows == s.rows + [ph.row])
  }

  lemma StepGrows(s: Stores, ph: Phase, reply: Reply)
    requires CallOk(s, ph)
    ensures Grows(s, ph, Step(s, ph, reply))
  {
    hide Encode, CacheGet, Decode, FindRow, Conflicts, Base62.Encode, Backed;
  }

  lemma StepTable(s: Stores, ph: Phase, reply: Reply)
    requires TableOk(s) && CallOk(s, ph)
    ensures TableOk(Step(s, ph, reply).stores)
  {
    hide Encode, CacheGet, Decode, FindRow, Conflicts, Base62.Encode, Backed;
  }

  lemma BackedGrows(rows: seq<Row>, row: Row, alias: string, record: UrlRecord)
    requires Backed(rows, alias, record)
    ensures Backed(rows + [row], alias, record)
  {
    var i :| 0 <= i < |rows| && rows[i].alias == alias && Agrees(record, rows[i]);
    assert (rows + [row])[i] == rows[i];
  }

  lemma {:induction false} FindRowFinds(rows: seq<Row>, alias: string)
    ensures FindRow(rows, alias).Some? ==>
              FindRow(rows, alias).value in rows && FindRow(rows, alias).value.alias == alias
    ensures FindRow(rows, alias).None? ==> forall i :: 0 <= i < |rows| ==> rows[i].alias != alias
  {
    if rows != [] {
      FindRowFinds(rows[1..], alias);
    }
  }

  lemma BackedBy(rows: seq<Row>, row: Row, record: UrlRecord)
    requires row in rows && Agrees(record, row)
    ensures Backed(rows, row.alias, record)
  {
    var i :| 0 <= i < |rows| && rows[i] == row;
  }

  lemma StepCall(s: Stores, ph: Phase, reply: Reply)
    requires TableOk(s) && CacheOk(s) && CallOk(s, ph)
    ensures CallOk(Step(s, ph, reply).stores, Step(s, ph, reply).phase)
  {
    hide Conflicts, Base62.Encode, Backed, Encode, Decode, FindRow;
    match ph
    case Querying(alias) =>
      FindRowFinds(s.rows, alias);
      if FindRow(s.rows, alias).Some? {
        BackedBy(s.rows, FindRow(s.rows, alias).value, RowRecord(FindRow(s.rows, alias).value));
      }
    case _ =>
  }

  lemma StepAnswers(s: Stores, request: Request, ph: Phase, reply: Reply)
    requires Answers(request, ph)
    ensures Answers(request, Step(s, ph, reply).phase)
  {
    hide Conflicts, Base62.Encode, CacheGet, Decode, FindRow;
  }

  /** Only SET writes the cache, and it writes a record backed by the table. */
  lemma StepCache(s: Stores, ph: Phase, reply: Reply)
    requires TableOk(s) && CacheOk(s) && CallOk(s, ph)
    ensures CacheOk(Step(s, ph, reply).stores)
  {
    hide Conflicts, Base62.Encode, Encode, Decode, FindRow, CacheSet, CacheGet, Backed, TableOk;
    var m := Step(s, ph, reply);
    match ph
    case Warming(row) =>
      BackedBy(s.rows, row, WarmRecord(row, s.now));
      CacheSetOk(s, row.alias, WarmRecord(row, s.now));
    case Filling(alias, record) => CacheSetOk(s, alias, record);
    case Committing(row) =>
      if m.stores.rows != s.rows {
        forall alias | alias in s.cache && Decode(s.cache[alias].content).Some?
          ensures Backed(m.stores.rows, alias, Decode(s.cache[alias].content).value)
        {
          BackedGrows(s.rows, row, alias, Decode(s.cache[alias].content).value);
        }
      }
    case _ =>
  }

  lemma CacheSetOk(s: Stores, alias: string, record: UrlRecord)
    requires CacheOk(s) && Backed(s.rows, alias, record)
    ensures CacheOk(CacheSet(s, alias, record)) && CacheSet(s, alias, record).rows == s.rows
    ensures forall c :: CacheOk(CacheSet(s, alias, record).(clients := c))
  {
    DecodeOfEncode(record);
    hide Encode, Decode, Backed;
  }

  /** A step of one call leaves what the others rely on intact. */
  lemma OthersKept(s: Stores, ph: Phase, m: Move, other: Phase)
    requires Grows(s, ph, m) && CallOk(s, other)
    requires IdOf(ph).Some? ==> IdOf(ph) != IdOf(other)
    ensures CallOk(m.stores, other)
    ensures IdOf(m.phase).Some? ==> IdOf(m.phase) != IdOf(other)
  {
    hide Base62.Encode, Backed;
    if (other.Filling? || other.Found?) && m.stores.rows != s.rows {
      BackedGrows(s.rows, ph.row, other.alias, other.record);
    }
  }

  lemma AdvanceKeepsCalls(s: State, p: nat, reply: Reply)
    requires Inv(s) && p < |s.procs|
    ensures CallsOk(Next(s, Advance(p, reply)))
  {
    hide Step, CallOk, Answers, Grows, IdOf, TableOk, CacheOk;
    var m := Step(s.stores, s.procs[p], reply);
    StepGrows(s.stores, s.procs[p], reply);
    StepCall(s.stores, s.procs[p], reply);
    StepAnswers(s.stores, s.requests[p], s.procs[p], reply);
    forall q | 0 <= q < |s.procs| && q != p
      ensures CallOk(m.stores, s.procs[q]) && (IdOf(m.phase).Some? ==> IdOf(m.phase) != IdOf(s.procs[q]))
    {
      OthersKept(s.stores, s.procs[p], m, s.procs[q]);
    }
  }

  lemma AdvanceKeepsAuthors(s: State, p: nat, reply: Reply)
    requires Inv(s) && p < |s.procs|
    ensures AuthorsOk(Next(s, Advance(p, reply)))
  {
    hide Step, CallOk, Answers, TableOk, CacheOk;
    StepGrows(s.stores, s.procs[p], reply);
  }

  lemma NextKeepsInv(s: State, a: Action)
    requires Inv(s)
    ensures Inv(Next(s, a))
  {
    hide Step, Backed, Decode;
    match a
    case Advance(p, reply) =>
      if p < |s.procs| {
        StepTable(s.stores, s.procs[p], reply);
        StepCache(s.stores, s.procs[p], reply);
        AdvanceKeepsCalls(s, p, reply);
        AdvanceKeepsAuthors(s, p, reply);
      }
    case Call(request) =>
    case Pass(seconds) =>
    case Corrupt(alias, deadline) => assert Decode(Corrupted).None? by { CorruptedUnreadable(); }
  }

  lemma CorruptedUnreadable()
    ensures Decode(Corrupted).None?
  {
  }

  lemma {:induction false} Reachable(now: int, acts: seq<Action>)
    ensures Inv(Run(Init(now), acts))
  {
    hide Next, Inv;
    if acts == [] {
      InitInv(now);
    } else {
      Reachable(now, acts[..|acts| - 1]);
      NextKeepsInv(Run(Init(now), acts[..|acts| - 1]), acts[|acts| - 1]);
    }
  }

  lemma InitInv(now: int)
    ensures Inv(Init(now))
  {
  }

  /******* Clients *******/

  lemma StepClients(s: Stores, ph: Phase, reply: Reply)
    ensures var m := Step(s, ph, reply);
            m.stores.clients - s.clients == HoldsClient(m.phase) - HoldsClient(ph)
  {
    hide Conflicts, Base62.Encode, Encode, Decode, FindRow, CacheGet;
  }

  /** In every reachable state the clients checked out are those of the calls between their
      connect and their release: a finished call, however it ended, holds none. */
  lemma {:induction false} ClientsAccounted(now: int, acts: seq<Action>)
    ensures var s := Run(Init(now), acts);
            s.stores.clients == Total(s.procs, HoldsClient)
  {
    if acts != [] {
      hide Step;
      var s, a := Run(Init(now), acts[..|acts| - 1]), acts[|acts| - 1];
      ClientsAccounted(now, acts[..|acts| - 1]);
      match a
      case Advance(p, reply) =>
        if p < |s.procs| {
          StepClients(s.stores, s.procs[p], reply);
          TotalUpdate(s.procs, p, Step(s.stores, s.procs[p], reply).phase, HoldsClient);
        }
      case Call(request) => TotalAppend(s.procs, Start(request), HoldsClient);
      case _ =>
    }
  }
}
