/**
 What the URL service promises its callers, over every run of `UrlMachine`: the cached
 system answers like plain table lookup, an alias once returned resolves for ever, aliases
 are unique, and a call's outcome says exactly what it left in the table.
 */
module UrlTheorems {
  import opened Environment
  import opened UrlMachine
  import opened UrlInvariants
  import Base62

  /** What a caller learns about an alias. */
  datatype Entry = Entry(id: nat, alias: string, url: string, owner: Option<string>)

  function EntryOfRow(row: Row): Entry {
    Entry(row.id, row.alias, row.url, row.owner)
  }

  function EntryOfRecord(record: UrlRecord): Entry {
    Entry(record.id, record.alias, record.url, OwnerOf(record.owner))
  }

  /** The reference system: a table and nothing else. */
  function Lookup(rows: seq<Row>, alias: string): Option<Entry> {
    match FindRow(rows, alias)
    case None => None
    case Some(row) => Some(EntryOfRow(row))
  }

  /******* Uniqueness *******/

  /** Two rows of a reachable table differ in alias as well as in id. */
  lemma AliasesUnique(s: Stores, i: nat, j: nat)
    requires TableOk(s) && i < |s.rows| && j < |s.rows| && s.rows[i].alias == s.rows[j].alias
    ensures i == j
  {
    hide Base62.Encode;
    Base62.EncodeInjective(s.rows[i].id, s.rows[j].id);
  }

  /** In every reachable state: ids never repeat, neither among rows nor among running or
      ended calls; a row's alias is its id's and decodes to it; and an INSERT about to run
      meets neither a committed row nor another call's row with its id or alias. */
  lemma IdsAndAliasesUnique(now: int, acts: seq<Action>)
    ensures var s := Run(Init(now), acts);
            && (forall i, j :: 0 <= i < j < |s.stores.rows| ==>
                  s.stores.rows[i].id != s.stores.rows[j].id && s.stores.rows[i].alias != s.stores.rows[j].alias)
            && (forall i :: 0 <= i < |s.stores.rows| ==>
                  var row := s.stores.rows[i];
                  row.alias == Base62.Encode(row.id) && Base62.IsAlias(row.alias)
                  && Base62.Value(row.alias) == row.id && |row.alias| <= 11)
            && (forall p, q :: 0 <= p < q < |s.procs| && IdOf(s.procs[p]).Some? ==>
                  IdOf(s.procs[p]) != IdOf(s.procs[q]))
            && (forall p, i :: 0 <= p < |s.procs| && s.procs[p].Inserting? && 0 <= i < |s.stores.rows| ==>
                  s.stores.rows[i].id != s.procs[p].id
                  && s.stores.rows[i].alias != Base62.Encode(s.procs[p].id))
            && (forall p, q :: 0 <= p < |s.procs| && s.procs[p].Inserting?
                               && 0 <= q < |s.procs| && s.procs[q].Committing? ==>
                  s.procs[q].row.id != s.procs[p].id
                  && s.procs[q].row.alias != Base62.Encode(s.procs[p].id))
  {
    hide Base62.Encode, Base62.IsAlias, Base62.Value;
    Reachable(now, acts);
    var s := Run(Init(now), acts);
    forall i, j | 0 <= i < j < |s.stores.rows|
      ensures s.stores.rows[i].alias != s.stores.rows[j].alias
    {
      if s.stores.rows[i].alias == s.stores.rows[j].alias {
        AliasesUnique(s.stores, i, j);
      }
    }
    forall i | 0 <= i < |s.stores.rows|
      ensures var row := s.stores.rows[i];
              Base62.IsAlias(row.alias) && Base62.Value(row.alias) == row.id && |row.alias| <= 11
    {
      Base62.DecodeOfEncode(s.stores.rows[i].id);
      Base62.BigserialAliases(s.stores.rows[i].id);
    }
    forall p | 0 <= p < |s.procs| && s.procs[p].Inserting?
      ensures forall i :: 0 <= i < |s.stores.rows| ==>
                s.stores.rows[i].id != s.procs[p].id && s.stores.rows[i].alias != Base62.Encode(s.procs[p].id)
      ensures forall q :: 0 <= q < |s.procs| && s.procs[q].Committing? ==>
                s.procs[q].row.id != s.procs[p].id && s.procs[q].row.alias != Base62.Encode(s.procs[p].id)
    {
      InsertNeverConflicts(s, p);
    }
  }

  /** nextval gives the value after the last one, up to the end of a BIGSERIAL column. */
  lemma SequenceExactly(s: Stores, url: string, owner: Option<string>)
    ensures Step(s, Numbering(url, owner), Done).phase
         == (if s.sequence < 9223372036854775807 then Inserting(s.sequence + 1, url, owner) else Aborting(None, None))
  {
  }

  /** A statement that meets no taken id or alias goes through; one that meets either fails. */
  lemma UniqueIndexExactly(s: Stores, id: nat, url: string, owner: Option<string>)
    ensures Step(s, Inserting(id, url, owner), Done).phase.Committing? <==>
              forall i :: 0 <= i < |s.rows| ==> s.rows[i].id != id && s.rows[i].alias != Base62.Encode(id)
  {
    hide Base62.Encode;
  }

  lemma InsertNeverConflicts(s: State, p: nat)
    requires Inv(s) && p < |s.procs| && s.procs[p].Inserting?
    ensures forall i :: 0 <= i < |s.stores.rows| ==>
              s.stores.rows[i].id != s.procs[p].id && s.stores.rows[i].alias != Base62.Encode(s.procs[p].id)
    ensures forall q :: 0 <= q < |s.procs| && s.procs[q].Committing? ==>
              s.procs[q].row.id != s.procs[p].id && s.procs[q].row.alias != Base62.Encode(s.procs[p].id)
  {
    hide Base62.Encode;
    var id := s.procs[p].id;
    assert CallOk(s.stores, s.procs[p]);
    forall i | 0 <= i < |s.stores.rows|
      ensures s.stores.rows[i].alias != Base62.Encode(id)
    {
      if s.stores.rows[i].alias == Base62.Encode(id) {
        Base62.EncodeInjective(s.stores.rows[i].id, id);
      }
    }
    forall q | 0 <= q < |s.procs| && s.procs[q].Committing?
      ensures s.procs[q].row.id != id && s.procs[q].row.alias != Base62.Encode(id)
    {
      assert CallOk(s.stores, s.procs[q]);
      assert IdOf(s.procs[p]) != IdOf(s.procs[q]);
      if s.procs[q].row.alias == Base62.Encode(id) {
        Base62.EncodeInjective(s.procs[q].row.id, id);
      }
    }
  }

  /******* The cache refines the table *******/

  lemma {:induction false} FindUnique(rows: seq<Row>, i: nat)
    requires i < |rows| && forall j :: 0 <= j < |rows| && rows[j].alias == rows[i].alias ==> j == i
    ensures FindRow(rows, rows[i].alias) == Some(rows[i])
  {
    if i > 0 {
      assert rows[0].alias != rows[i].alias;
      forall j | 0 <= j < |rows| - 1 && rows[1..][j].alias == rows[i].alias
        ensures j == i - 1
      {
        assert rows[j + 1].alias == rows[i].alias;
      }
      FindUnique(rows[1..], i - 1);
    }
  }

  /** A row of a reachable table is what its alias looks up. */
  lemma RowIsLookedUp(s: Stores, row: Row)
    requires TableOk(s) && row in s.rows
    ensures Lookup(s.rows, row.alias) == Some(EntryOfRow(row))
  {
    hide Base62.Encode, FindRow;
    var i :| 0 <= i < |s.rows| && s.rows[i] == row;
    forall j | 0 <= j < |s.rows| && s.rows[j].alias == row.alias
      ensures j == i
    {
      AliasesUnique(s, i, j);
    }
    FindUnique(s.rows, i);
  }

  lemma BackedIsLookedUp(s: Stores, alias: string, record: UrlRecord)
    requires TableOk(s) && Backed(s.rows, alias, record)
    ensures Lookup(s.rows, alias) == Some(EntryOfRecord(record))
  {
    hide Base62.Encode, FindRow, Lookup;
    var i :| 0 <= i < |s.rows| && s.rows[i].alias == alias && Agrees(record, s.rows[i]);
    RowIsLookedUp(s, s.rows[i]);
  }

  /** In every reachable state, whatever a cache hit would return is what the table says. */
  lemma CacheRefinesTable(now: int, acts: seq<Action>, alias: string)
    ensures var s := Run(Init(now), acts).stores;
            var hit := CacheGet(s, alias);
            hit.Some? && Decode(hit.value).Some? ==>
              Lookup(s.rows, alias) == Some(EntryOfRecord(Decode(hit.value).value))
  {
    hide Base62.Encode, FindRow, Lookup, Decode, Backed;
    Reachable(now, acts);
    var s := Run(Init(now), acts).stores;
    if alias in s.cache && Decode(s.cache[alias].content).Some? {
      BackedIsLookedUp(s, alias, Decode(s.cache[alias].content).value);
    }
  }

  /** The cache has a record for an alias that has not expired. */
  ghost predicate LiveEntry(s: Stores, alias: string, record: UrlRecord) {
    alias in s.cache && s.now < s.cache[alias].deadline && s.cache[alias].content == Encode(record)
  }

  /** A GET that is answered ends the call with the record when there is a live one, and leads to
      the SELECT when there is nothing to use; one that fails always does. */
  lemma HitExactly(s: Stores, alias: string, record: UrlRecord, reply: Reply)
    ensures LiveEntry(s, alias, record) && reply.Done? ==>
              Step(s, Reading(alias), reply) == Move(s, Found(alias, record))
    ensures alias !in s.cache || s.cache[alias].deadline <= s.now || s.cache[alias].content == Corrupted
            || reply.Fault? ==>
              Step(s, Reading(alias), reply) == Move(s, Querying(alias))
  {
    DecodeOfEncode(record);
    hide Encode, Decode;
    CorruptedUnreadable();
  }

  /** A command that fails leaves sequence, table and cache as a successful one does if it was
      carried out, and as they were if not. A failed request for a client checks none out. */
  lemma FaultsExactly(s: Stores, ph: Phase, code: string)
    ensures var t, done := Step(s, ph, Fault(true, code)).stores, Step(s, ph, Done).stores;
            t.sequence == done.sequence && t.rows == done.rows && t.cache == done.cache
    ensures var t := Step(s, ph, Fault(false, code)).stores;
            t.sequence == s.sequence && t.rows == s.rows && t.cache == s.cache
  {
    hide Encode, Decode, FindRow, Conflicts, Base62.Encode, CacheGet, CacheSet;
  }

  /** The two SETs leave a live record of the row, for 86400 seconds. */
  lemma SetLeavesEntry(s: Stores, alias: string, row: Row, record: UrlRecord)
    ensures var t := Step(s, Warming(row), Done).stores;
            var owner := if row.owner.Some? then Owned(row.owner.value) else Undefined;
            LiveEntry(t, row.alias, UrlRecord(row.id, row.alias, row.url, owner, s.now)) && t.now == s.now
            && t.cache[row.alias].deadline == s.now + 86400
    ensures var t := Step(s, Filling(alias, record), Done).stores;
            LiveEntry(t, alias, record) && t.now == s.now && t.cache[alias].deadline == s.now + 86400
  {
    hide Encode;
  }

  /** What a `resolveUrl` call has found out: None while it does not know, and when it throws. */
  function AnswerOf(ph: Phase): Option<Option<Entry>> {
    match ph
    case Filling(_, record) => Some(Some(EntryOfRecord(record)))
    case Found(_, record) => Some(Some(EntryOfRecord(record)))
    case NotFound(_) => Some(None)
    case _ => None
  }

  /** A step that gives a call its answer gives it the table's. */
  lemma StepAnswersFromTable(s: Stores, alias: string, ph: Phase, reply: Reply)
    requires TableOk(s) && CacheOk(s) && Answers(Resolve(alias), ph)
    ensures AnswerOf(Step(s, ph, reply).phase) == AnswerOf(ph)
         || (AnswerOf(ph) == None && AnswerOf(Step(s, ph, reply).phase) == Some(Lookup(s.rows, alias)))
  {
    hide Base62.Encode, FindRow, Decode, Backed, CacheSet;
    match ph
    case Reading(_) =>
      if alias in s.cache && Decode(s.cache[alias].content).Some? {
        BackedIsLookedUp(s, alias, Decode(s.cache[alias].content).value);
      }
    case _ =>
  }

  /** After k actions process p is running, has no answer yet, and the table says `answer`. */
  ghost predicate LinearizedAt(now: int, acts: seq<Action>, p: nat, alias: string, answer: Option<Entry>, k: nat) {
    && k <= |acts|
    && p < |Run(Init(now), acts[..k]).procs|
    && AnswerOf(Run(Init(now), acts[..k]).procs[p]).None?
    && Lookup(Run(Init(now), acts[..k]).stores.rows, alias) == answer
  }

  /** Every `resolveUrl` that does not throw returns what a plain table lookup returned at
      some moment between its start and its end, in any interleaving with shortenings,
      expiry, corruption and Redis faults. */
  lemma {:induction false} ResolveIsTableLookup(now: int, acts: seq<Action>, p: nat, alias: string)
    requires var s := Run(Init(now), acts);
             p < |s.procs| && p < |s.requests| && s.requests[p] == Resolve(alias) && AnswerOf(s.procs[p]).Some?
    ensures exists k: nat :: LinearizedAt(now, acts, p, alias, AnswerOf(Run(Init(now), acts).procs[p]).value, k)
  {
    hide Next, Lookup, AnswerOf, Inv;
    if acts != [] {
      var n := |acts| - 1;
      var s, a := Run(Init(now), acts[..n]), acts[n];
      Reachable(now, acts[..n]);
      AnswerStep(s, a, p, alias);
      var answer := AnswerOf(Next(s, a).procs[p]).value;
      if AnswerOf(s.procs[p]) == Some(answer) {
        ResolveIsTableLookup(now, acts[..n], p, alias);
        var k: nat :| LinearizedAt(now, acts[..n], p, alias, answer, k);
        LinearizedLater(now, acts, p, alias, answer, k);
      } else {
        assert LinearizedAt(now, acts, p, alias, answer, n);
      }
    }
  }

  /** A call that has found a record: at a moment before its answer the table held a row of the
      alias with the record's id, address and owner. */
  lemma FoundWasInTable(now: int, acts: seq<Action>, p: nat, alias: string) returns (k: nat, i: nat)
    requires var s := Run(Init(now), acts);
             p < |s.procs| && p < |s.requests| && s.requests[p] == Resolve(alias) && s.procs[p].Found?
    ensures k <= |acts|
    ensures var s := Run(Init(now), acts[..k]);
            p < |s.procs| && !s.procs[p].Found? && !s.procs[p].NotFound? && i < |s.stores.rows|
    ensures var row, record := Run(Init(now), acts[..k]).stores.rows[i], Run(Init(now), acts).procs[p].record;
            && row.alias == alias && record.alias == alias && record.id == row.id && record.url == row.url
            && (if row.owner.Some? then record.owner == Owned(row.owner.value) else !record.owner.Owned?)
  {
    hide Run, FindRow;
    ResolveIsTableLookup(now, acts, p, alias);
    var answer := AnswerOf(Run(Init(now), acts).procs[p]).value;
    k :| LinearizedAt(now, acts, p, alias, answer, k);
    var rows := Run(Init(now), acts[..k]).stores.rows;
    FindRowFinds(rows, alias);
    i :| 0 <= i < |rows| && rows[i] == FindRow(rows, alias).value;
  }

  /** A call that has found nothing: at a moment before its answer the table had no row of the alias. */
  lemma AbsentWasNotInTable(now: int, acts: seq<Action>, p: nat, alias: string) returns (k: nat)
    requires var s := Run(Init(now), acts);
             p < |s.procs| && p < |s.requests| && s.requests[p] == Resolve(alias) && s.procs[p].NotFound?
    ensures k <= |acts|
    ensures var s := Run(Init(now), acts[..k]);
            p < |s.procs| && !s.procs[p].Found? && !s.procs[p].NotFound?
    ensures forall row <- Run(Init(now), acts[..k]).stores.rows :: row.alias != alias
  {
    hide Run, FindRow;
    ResolveIsTableLookup(now, acts, p, alias);
    k :| LinearizedAt(now, acts, p, alias, None, k);
    FindRowFinds(Run(Init(now), acts[..k]).stores.rows, alias);
  }

  lemma LinearizedLater(now: int, acts: seq<Action>, p: nat, alias: string, answer: Option<Entry>, k: nat)
    requires acts != [] && LinearizedAt(now, acts[..|acts| - 1], p, alias, answer, k)
    ensures LinearizedAt(now, acts, p, alias, answer, k)
  {
    assert acts[..|acts| - 1][..k] == acts[..k];
  }

  lemma AnswerStep(s: State, a: Action, p: nat, alias: string)
    requires Inv(s)
    requires var t := Next(s, a);
             p < |t.procs| && p < |t.requests| && t.requests[p] == Resolve(alias) && AnswerOf(t.procs[p]).Some?
    ensures p < |s.procs| && |s.requests| == |s.procs| && s.requests[p] == Resolve(alias)
    ensures AnswerOf(Next(s, a).procs[p]) == AnswerOf(s.procs[p])
         || (AnswerOf(s.procs[p]).None? && AnswerOf(Next(s, a).procs[p]) == Some(Lookup(s.stores.rows, alias)))
  {
    hide Step, Lookup;
    if a.Advance? && a.p == p && p < |s.procs| {
      assert Answers(s.requests[p], s.procs[p]);
      StepAnswersFromTable(s.stores, alias, s.procs[p], a.reply);
    }
  }

  /******* Durability *******/

  lemma {:induction false} RowsOnlyGrow(s: State, more: seq<Action>)
    requires Inv(s)
    ensures Inv(Run(s, more)) && s.stores.rows <= Run(s, more).stores.rows
    ensures |s.procs| <= |Run(s, more).procs|
  {
    hide Step, Inv;
    if more != [] {
      var t, a := Run(s, more[..|more| - 1]), more[|more| - 1];
      RowsOnlyGrow(s, more[..|more| - 1]);
      NextKeepsInv(t, a);
      NextGrows(t, a);
    }
  }

  lemma NextGrows(s: State, a: Action)
    requires Inv(s)
    ensures s.stores.rows <= Next(s, a).stores.rows && |s.procs| <= |Next(s, a).procs|
  {
    hide Step, TableOk, CacheOk, CallOk;
    if a.Advance? && a.p < |s.procs| {
      StepGrows(s.stores, s.procs[a.p], a.reply);
    }
  }

  predicate HasReturned(ph: Phase) {
    ph.Ended? && ph.outcome.Returned?
  }

  /** An alias that `shortenUrl` has returned resolves to its URL and owner ever after: any
      later `resolveUrl` for it that does not throw says so. */
  lemma ReturnedAliasResolvesForever(now: int, acts: seq<Action>, more: seq<Action>, p: nat, q: nat)
    requires p < |Run(Init(now), acts).procs| && HasReturned(Run(Init(now), acts).procs[p])
    requires var t := Run(Init(now), acts + more);
             && |Run(Init(now), acts).procs| <= q < |t.procs| && q < |t.requests|
             && t.requests[q] == Resolve(Run(Init(now), acts).procs[p].outcome.row.alias)
             && AnswerOf(t.procs[q]).Some?
    ensures AnswerOf(Run(Init(now), acts + more).procs[q]).value
         == Some(EntryOfRow(Run(Init(now), acts).procs[p].outcome.row))
  {
    hide Next, Lookup, AnswerOf;
    var s, all := Run(Init(now), acts), acts + more;
    var row := s.procs[p].outcome.row;
    Reachable(now, acts);
    assert CallOk(s.stores, s.procs[p]);
    ResolveIsTableLookup(now, all, q, row.alias);
    var k: nat :| LinearizedAt(now, all, q, row.alias, AnswerOf(Run(Init(now), all).procs[q]).value, k);
    assert all[..|acts|] == acts;
    if k < |acts| {
      EarlierHasFewer(now, all, k, |acts|);
      assert false;
    } else {
      assert all[..k] == acts + more[..k - |acts|];
      RunConcat(Init(now), acts, more[..k - |acts|]);
      RowsOnlyGrow(s, more[..k - |acts|]);
      RowIsLookedUp(Run(s, more[..k - |acts|]).stores, row);
    }
  }

  lemma EarlierHasFewer(now: int, acts: seq<Action>, j: nat, k: nat)
    requires j <= k <= |acts|
    ensures |Run(Init(now), acts[..j]).procs| <= |Run(Init(now), acts[..k]).procs|
  {
    hide Next;
    Reachable(now, acts[..j]);
    RunConcat(Init(now), acts[..j], acts[j..k]);
    assert acts[..k] == acts[..j] + acts[j..k];
    RowsOnlyGrow(Run(Init(now), acts[..j]), acts[j..k]);
  }

  /******* Outcomes *******/

  /** Process p committed row i. */
  predicate Committed(s: State, p: nat, i: int) {
    0 <= i < |s.authors| && i < |s.stores.rows| && s.authors[i] == p
  }

  /** Each call commits at most one row. It has committed one exactly when its phase says so:
      a normal return means its row, with its URL, its owner and the alias it returns, is
      there; a call that fails before COMMIT took effect leaves none; one that fails after it
      (a lost reply, a failed cache SET) leaves its row, which then resolves all the same. */
  lemma WriteOutcome(now: int, acts: seq<Action>, p: nat)
    requires var s := Run(Init(now), acts);
             p < |s.procs| && p < |s.requests| && s.requests[p].Shorten?
    ensures var s := Run(Init(now), acts);
            && (forall i, j :: Committed(s, p, i) && Committed(s, p, j) ==> i == j)
            && (StoredRow(s.procs[p]).None? ==> forall i :: !Committed(s, p, i))
            && (StoredRow(s.procs[p]).Some? ==>
                  var row := StoredRow(s.procs[p]).value;
                  && s.requests[p] == Shorten(row.url, row.owner)
                  && (exists i :: Committed(s, p, i) && s.stores.rows[i] == row)
                  && Lookup(s.stores.rows, Base62.Encode(row.id)) == Some(EntryOfRow(row)))
  {
    hide Step, Lookup, Base62.Encode;
    Reachable(now, acts);
    var s := Run(Init(now), acts);
    assert CallOk(s.stores, s.procs[p]) && Answers(s.requests[p], s.procs[p]);
    if StoredRow(s.procs[p]).Some? {
      var row := StoredRow(s.procs[p]).value;
      var i :| 0 <= i < |s.stores.rows| && s.stores.rows[i] == row;
      AuthorById(s, i, p);
      assert Committed(s, p, i);
      RowIsLookedUp(s.stores, row);
    }
    forall i, j | Committed(s, p, i) && Committed(s, p, j)
      ensures i == j
    {
      assert s.stores.rows[i] == s.stores.rows[j];
    }
  }

  /** The author of a row is the call that holds its id. */
  lemma AuthorById(s: State, i: nat, p: nat)
    requires Inv(s) && i < |s.stores.rows| && p < |s.procs| && StoredRow(s.procs[p]) == Some(s.stores.rows[i])
    ensures s.authors[i] == p
  {
    hide Base62.Encode, TableOk, CacheOk;
    var q := s.authors[i];
    assert StoredRow(s.procs[q]) == Some(s.stores.rows[i]);
    StoredId(s, p);
    StoredId(s, q);
  }

  lemma StoredId(s: State, p: nat)
    requires Inv(s) && p < |s.procs| && StoredRow(s.procs[p]).Some?
    ensures IdOf(s.procs[p]) == Some(StoredRow(s.procs[p]).value.id)
  {
    hide TableOk, CacheOk, CallOk, AuthorsOk;
    assert Answers(s.requests[p], s.procs[p]);
  }
}
