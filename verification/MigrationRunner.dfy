/**
 The migration runner object: monthly partitions, each made by a statement that is retried
 with exponential backoff
 (src/database/postgres/pool_schema_manager/migrations/migrationRunner.js:80-115).
 */
module MigrationRunners {
  import opened Environment
  import opened Calendar
  import opened Partitions
  import Decimal

  const TRANSIENT_CODES := ["57P01", "57P03", "08006", "08001", "08004", "40P01"]

  predicate IsTransientError(code: string) {
    code in TRANSIENT_CODES
  }

  function Pow2(n: nat): nat {
    if n == 0 then 1 else 2 * Pow2(n - 1)
  }

  function ReplyAt(script: seq<Reply>, k: nat): Reply {
    if k < |script| then script[k] else Done
  }

  /** One of the first retries + 1 attempts goes through, after transient faults only. */
  ghost predicate Recovers(script: seq<Reply>, retries: nat) {
    exists k: nat :: k <= retries && ReplyAt(script, k).Done? && OnlyTransient(script, k)
  }

  ghost predicate OnlyTransient(script: seq<Reply>, k: nat) {
    forall j: nat :: j < k ==> ReplyAt(script, j).Fault? && IsTransientError(ReplyAt(script, j).code)
  }

  lemma RecoversLater(script: seq<Reply>, retries: nat)
    requires ReplyAt(script, 0).Fault? && IsTransientError(ReplyAt(script, 0).code) && retries > 0
    ensures Recovers(script, retries) <==> Recovers(Remaining(script), retries - 1)
  {
    hide IsTransientError;
    forall k: nat
      ensures ReplyAt(Remaining(script), k) == ReplyAt(script, k + 1)
    {
    }
    if Recovers(script, retries) {
      var k: nat :| k <= retries && ReplyAt(script, k).Done? && OnlyTransient(script, k);
      assert OnlyTransient(Remaining(script), k - 1);
    }
    if Recovers(Remaining(script), retries - 1) {
      var k: nat :| k <= retries - 1 && ReplyAt(Remaining(script), k).Done? && OnlyTransient(Remaining(script), k);
      forall j: nat | j < k + 1
        ensures ReplyAt(script, j).Fault? && IsTransientError(ReplyAt(script, j).code)
      {
        if j > 0 {
          assert ReplyAt(script, j) == ReplyAt(Remaining(script), j - 1);
        }
      }
      assert OnlyTransient(script, k + 1);
    }
  }

  lemma NoLaterAttempt(script: seq<Reply>, retries: nat)
    requires ReplyAt(script, 0).Fault? && (retries == 0 || !IsTransientError(ReplyAt(script, 0).code))
    ensures !Recovers(script, retries)
  {
    hide IsTransientError;
    forall k: nat | 0 < k <= retries
      ensures !OnlyTransient(script, k)
    {
    }
  }

  /** With a retry left, a first fault is made good by the next attempt exactly for the six codes. */
  lemma RetriedCodesExactly(applied: bool, code: string, retries: nat, rest: seq<Reply>)
    requires retries > 0
    ensures Recovers([Fault(applied, code), Done] + rest, retries)
       <==> code in {"57P01", "57P03", "08006", "08001", "08004", "40P01"}
  {
    var script := [Fault(applied, code), Done] + rest;
    assert ReplyAt(script, 0) == Fault(applied, code) && ReplyAt(script, 1) == Done;
    if IsTransientError(code) {
      assert OnlyTransient(script, 1);
    } else {
      NoLaterAttempt(script, retries);
    }
  }

  /** The pool: what partitions exist, and the replies still to come. */
  class Pool {
    var partitions: Schema
    var replies: seq<Reply>
    var attempts: nat

    constructor (partitions: Schema, replies: seq<Reply>)
      ensures this.partitions == partitions && this.replies == replies && attempts == 0
    {
      this.partitions, this.replies, attempts := partitions, replies, 0;
    }

    /** One CREATE statement. A fault may hide that it took effect. */
    method Query(name: string, r: Range) returns (error: Option<string>)
      modifies this
      ensures attempts == old(attempts) + 1 && replies == Remaining(old(replies))
      ensures var reply, made := NextReply(old(replies)), Create(old(partitions), name, r);
              && partitions == (if made.Ok? && (reply.Done? || reply.applied) then made.value else old(partitions))
              && error == (if reply.Fault? then Some(reply.code) else if made.Error? then Some(made.message) else None)
    {
      var reply, made := NextReply(replies), Create(partitions, name, r);
      replies, attempts := Remaining(replies), attempts + 1;
      if made.Ok? && (reply.Done? || reply.applied) {
        partitions := made.value;
      }
      return if reply.Fault? then Some(reply.code) else if made.Error? then Some(made.message) else None;
    }
  }

  class MigrationRunner {
    const pool: Pool
    const maxRetries: nat
    var slept: seq<nat>  // the delays waited out so far, in milliseconds

    constructor (pool: Pool, maxRetries: nat)
      ensures this.pool == pool && this.maxRetries == maxRetries && slept == []
    {
      this.pool, this.maxRetries, slept := pool, maxRetries, [];
    }

    /** Run a statement, and again after each transient error while retries are left. It
        returns exactly when an attempt goes through after transient faults only, and then
        the effect is that of the statement run once; it gives up on a transient error only
        after retries + 1 attempts; the delays double from one attempt to the next. */
    method ExecuteWithRetry(name: string, r: Range, retries: nat) returns (error: Option<string>)
      requires retries <= maxRetries
      modifies pool, this`slept
      ensures error.None? <==> Create(old(pool.partitions), name, r).Ok? && Recovers(old(pool.replies), retries)
      ensures error.None? ==> Create(old(pool.partitions), name, r) == Ok(pool.partitions)
      ensures error.Some? ==> pool.partitions == old(pool.partitions)
                              || Create(old(pool.partitions), name, r) == Ok(pool.partitions)
      ensures old(pool.attempts) < pool.attempts <= old(pool.attempts) + retries + 1
      ensures error.Some? && error.value in {"57P01", "57P03", "08006", "08001", "08004", "40P01"} ==>
                pool.attempts == old(pool.attempts) + retries + 1
      ensures old(slept) <= slept && |slept| - |old(slept)| == pool.attempts - old(pool.attempts) - 1
      ensures forall i :: |old(slept)| <= i < |slept| ==>
                slept[i] == 200 * Pow2(maxRetries - retries + (i - |old(slept)|))
      ensures old(pool.replies) == [] ==>
                pool.replies == [] && (error.None? <==> Create(old(pool.partitions), name, r).Ok?)
      decreases retries
    {
      hide Overlap;
      error := pool.Query(name, r);
      if error.Some? {
        if IsTransientError(error.value) && retries > 0 {
          var delay := Pow2(maxRetries - retries) * 200;
          slept := slept + [delay];
          RecoversLater(old(pool.replies), retries);
          error := ExecuteWithRetry(name, r, retries - 1);
        } else if NextReply(old(pool.replies)).Fault? {
          NoLaterAttempt(old(pool.replies), retries);
        }
      } else {
        assert ReplyAt(old(pool.replies), 0).Done? && OnlyTransient(old(pool.replies), 0);
      }
    }

    /** Partitions for the current month and the next six. Success leaves exactly what the
        seven statements make of the schema; a failure leaves what the first few make of it. */
    method EnsureMonthlyPartitions(zone: Offset, year: nat, month: nat) returns (error: Option<string>)
      requires month < 12 && year >= 100
      modifies pool, this`slept
      ensures error.None? ==>
                CreateAll(zone, old(pool.partitions), Window(MonthIndex(year, month), 7)) == Ok(pool.partitions)
      ensures error.Some? ==>
                (exists n: nat :: n <= 7
                   && CreateAll(zone, old(pool.partitions), Window(MonthIndex(year, month), n)) == Ok(pool.partitions))
      ensures old(pool.replies) == [] && error.Some? ==>
                CreateAll(zone, old(pool.partitions), Window(MonthIndex(year, month), 7)).Error?
    {
      hide Create, CreateAll, Decimal.Text, Decimal.Padded, MonthStart, Recovers;
      ghost var first := MonthIndex(year, month);
      assert Window(first, 0) == [];
      CreateNone(zone, pool.partitions);
      for i := 0 to 7
        invariant CreateAll(zone, old(pool.partitions), Window(first, i)) == Ok(pool.partitions)
        invariant old(pool.replies) == [] ==> pool.replies == []
      {
        var date, nextDate := MonthIndex(year, month + i), MonthIndex(year, month + i + 1);
        var tableName := "clicks_y" + Decimal.Text(FullYear(date)) + "m" + Decimal.Padded(MonthOfYear(date) + 1);
        var start, end := MonthStart(zone, date), MonthStart(zone, nextDate);
        assert tableName == NameOf(first + i) && Range(start, end) == RangeOf(zone, first + i);
        error := ExecuteWithRetry(tableName, Range(start, end), maxRetries);
        assert Window(first, i + 1) == Window(first, i) + [first + i];
        CreateAllSnoc(zone, old(pool.partitions), Window(first, i), first + i);
        if error.Some? {
          FailureStays(zone, old(pool.partitions), first, i + 1, 7);
          return;
        }
      }
      return None;
    }
  }

  lemma {:induction false} FailureStays(zone: Offset, parts: Schema, m: nat, i: nat, n: nat)
    requires i <= n
    ensures CreateAll(zone, parts, Window(m, i)).Error? ==> CreateAll(zone, parts, Window(m, n)).Error?
  {
    hide Create;
    if i < n {
      FailureStays(zone, parts, m, i, n - 1);
      assert Window(m, n)[..n - 1] == Window(m, n - 1);
    }
  }

  /** The waits before the n-th retry add up to 200 * (2^n - 1) milliseconds. */
  lemma {:induction false} TotalBackoff(slept: seq<nat>)
    requires forall i: nat :: i < |slept| ==> slept[i] == 200 * Pow2(i)
    ensures Total(slept, (delay: nat) => delay) == 200 * (Pow2(|slept|) - 1)
  {
    if slept != [] {
      TotalBackoff(slept[..|slept| - 1]);
    }
  }

  /** After a successful run in the zone of all runs before it, every instant from the start
      of the current month to the end of the sixth after it has its partition. */
  lemma RunCovers(zone: Offset, parts: Schema, held: set<nat>, m: nat, t: int)
    requires IsZone(zone) && Holds(parts, OneZone(zone), held)
    requires MonthStart(zone, m) <= t < MonthStart(zone, m + 7)
    ensures var after := CreateAll(zone, parts, Window(m, 7));
            after.Ok? && Disjoint(after.value) && Covered(after.value, t)
  {
    hide MonthStart, NameOf, CreateAll, Disjoint, In;
    AnyRuns(zone, parts, held, Window(m, 7));
    var i := Tiling(zone, m, 7, t);
    assert Window(m, 7)[i] == m + i;
    HeldCovers(zone, CreateAll(zone, parts, Window(m, 7)).value, held + Named(Window(m, 7)), m + i, t);
  }

  lemma HeldCovers(zone: Offset, parts: Schema, held: set<nat>, k: nat, t: int)
    requires Holds(parts, OneZone(zone), held) && k in held && In(t, RangeOf(zone, k))
    ensures Covered(parts, t)
  {
    hide NameOf, RangeOf;
    assert NameOf(k) in parts;
  }
}
