/**
 The monthly partitions of the clicks table, as statements make them: names, ranges and
 what CREATE TABLE IF NOT EXISTS does with both
 (src/database/postgres/pool_schema_manager/migrations/migrationRunner.js:80-97,
 src/database/postgres/pool_schema_manager/schema/schema_manager.sql:41-66).
 */
module Partitions {
  import opened Environment
  import opened Calendar
  import Decimal

  /** An instant belongs to a partition from its lower bound up to, not at, its upper bound. */
  datatype Range = Range(from: int, to: int)

  type Schema = map<string, Range>

  /** SQLSTATE of a range that is empty or would overlap another partition's. */
  const INVALID_OBJECT_DEFINITION := "42P17"

  predicate In(t: int, r: Range) {
    r.from <= t < r.to
  }

  predicate Overlap(r: Range, q: Range) {
    r.from < q.to && q.from < r.to
  }

  function NameOf(m: nat): string {
    "clicks_y" + Decimal.Text(FullYear(m)) + "m" + Decimal.Padded(MonthOfYear(m) + 1)
  }

  function RangeOf(zone: Offset, m: nat): Range {
    Range(MonthStart(zone, m), MonthStart(zone, m + 1))
  }

  /** CREATE TABLE IF NOT EXISTS name PARTITION OF clicks FOR VALUES FROM .. TO ..: only the
      name is compared when it is taken. */
  function Create(parts: Schema, name: string, r: Range): Result<Schema> {
    if name in parts then Ok(parts)
    else if r.from >= r.to || (exists other :: other in parts && Overlap(parts[other], r))
    then Error(INVALID_OBJECT_DEFINITION)
    else Ok(parts[name := r])
  }

  /** Two ranges that are not empty overlap exactly when they share an instant. */
  lemma OverlapExactly(r: Range, q: Range)
    requires r.from < r.to && q.from < q.to
    ensures Overlap(r, q) <==> exists t :: In(t, r) && In(t, q)
    ensures forall t :: In(t, r) <==> r.from <= t < r.to
  {
    if Overlap(r, q) {
      var t := if r.from < q.from then q.from else r.from;
      assert In(t, r) && In(t, q);
    }
  }

  /** A taken name is skipped whatever its range; a new one needs a range that is not empty and
      shares no instant with a partition's. */
  lemma CreateExactly(parts: Schema, name: string, from: int, to: int)
    requires forall other :: other in parts ==> parts[other].from < parts[other].to
    ensures name in parts ==> Create(parts, name, Range(from, to)) == Ok(parts)
    ensures name !in parts && from < to
            && (forall other, t :: other in parts && from <= t < to ==> !In(t, parts[other])) ==>
              Create(parts, name, Range(from, to)) == Ok(parts[name := Range(from, to)])
    ensures name !in parts
            && (from >= to || exists other, t :: other in parts && from <= t < to && In(t, parts[other])) ==>
              Create(parts, name, Range(from, to)) == Error("42P17")
  {
    if from < to {
      forall other | other in parts
        ensures Overlap(parts[other], Range(from, to))
           <==> exists t :: In(t, Range(from, to)) && In(t, parts[other])
      {
        OverlapExactly(parts[other], Range(from, to));
      }
      hide Overlap;
      assert forall t :: In(t, Range(from, to)) <==> from <= t < to;
    }
  }

  /** The statements for a list of months, up to the first that fails. */
  function CreateAll(zone: Offset, parts: Schema, months: seq<nat>): Result<Schema> {
    if months == [] then Ok(parts)
    else
      match CreateAll(zone, parts, months[..|months| - 1])
      case Error(e) => Error(e)
      case Ok(p) => Create(p, NameOf(months[|months| - 1]), RangeOf(zone, months[|months| - 1]))
  }

  lemma CreateAllSnoc(zone: Offset, parts: Schema, months: seq<nat>, m: nat)
    ensures CreateAll(zone, parts, months + [m]) ==
            match CreateAll(zone, parts, months)
            case Error(e) => Error(e)
            case Ok(p) => Create(p, NameOf(m), RangeOf(zone, m))
  {
    assert (months + [m])[..|months|] == months;
  }

  lemma CreateNone(zone: Offset, parts: Schema)
    ensures CreateAll(zone, parts, []) == Ok(parts)
  {
  }

  /** A statement repeated after it took effect changes nothing. */
  lemma CreateAgain(parts: Schema, name: string, r: Range)
    requires Create(parts, name, r).Ok?
    ensures Create(Create(parts, name, r).value, name, r) == Create(parts, name, r)
  {
  }

  /******* Names *******/

  /** The name tells the month: no two months share one. */
  lemma NamesInjective(a: nat, b: nat)
    requires NameOf(a) == NameOf(b)
    ensures a == b
  {
    hide Decimal.Text, Decimal.Padded;
    var prefix, ya, yb := "clicks_y", Decimal.Text(FullYear(a)), Decimal.Text(FullYear(b));
    var ma, mb := Decimal.Padded(MonthOfYear(a) + 1), Decimal.Padded(MonthOfYear(b) + 1);
    Decimal.NumberOfPadded(MonthOfYear(a) + 1);
    Decimal.NumberOfPadded(MonthOfYear(b) + 1);
    Decimal.NumberOfText(FullYear(a));
    Decimal.NumberOfText(FullYear(b));
    assert |NameOf(a)| == 8 + |ya| + 3 && |NameOf(b)| == 8 + |yb| + 3;
    assert ya == NameOf(a)[8..8 + |ya|] && yb == NameOf(b)[8..8 + |yb|];
    assert ma == NameOf(a)[9 + |ya|..] && mb == NameOf(b)[9 + |yb|..];
  }

  /******* Ranges *******/

  /** Whatever the zone and wherever the year turns, n months in a row tile their span: every
      instant of it lies in exactly one of the ranges. */
  lemma {:induction false} Tiling(zone: Offset, m: nat, n: nat, t: int) returns (i: nat)
    requires IsZone(zone) && MonthStart(zone, m) <= t < MonthStart(zone, m + n)
    ensures i < n && In(t, RangeOf(zone, m + i))
    ensures forall k: nat :: k != m + i ==> !In(t, RangeOf(zone, k))
  {
    hide MonthStart;
    i := 0;
    if n > 0 && t < MonthStart(zone, m + n - 1) {
      i := Tiling(zone, m, n - 1, t);
    } else if n > 0 {
      i := n - 1;
      forall k: nat | k != m + i
        ensures !In(t, RangeOf(zone, k))
      {
        MonthsDisjoint(zone, k, m + i);
      }
    }
  }

  /** Ranges of different months in one zone never overlap, and none is empty. */
  lemma MonthsDisjoint(zone: Offset, a: nat, b: nat)
    requires IsZone(zone) && a != b
    ensures !Overlap(RangeOf(zone, a), RangeOf(zone, b))
    ensures forall t :: !(In(t, RangeOf(zone, a)) && In(t, RangeOf(zone, b)))
  {
    hide MonthStart;
    var low, high := if a < b then a else b, if a < b then b else a;
    if low + 1 < high {
      StartsApart(zone, low + 1, high);
    }
  }

  /** The ranges of one run touch: each ends where the next begins, and is 26 days or longer. */
  lemma Contiguous(zone: Offset, m: nat)
    requires IsZone(zone)
    ensures RangeOf(zone, m).to == RangeOf(zone, m + 1).from
    ensures RangeOf(zone, m).from + 26 * DAY_MS <= RangeOf(zone, m).to
  {
    StartsApart(zone, m, m + 1);
  }

  /******* Any sequence of runs *******/

  /** The partitions are those of a set of months, each with the range given for it. */
  ghost predicate Holds(parts: Schema, ranges: nat -> Range, months: set<nat>) {
    && (forall k :: k in months ==> NameOf(k) in parts && parts[NameOf(k)] == ranges(k))
    && (forall name :: name in parts ==> exists k :: k in months && NameOf(k) == name)
  }

  /** What a statement for month m does to such a schema. */
  lemma CreateWhen(parts: Schema, ranges: nat -> Range, months: set<nat>, m: nat, r: Range)
    requires Holds(parts, ranges, months) && r.from < r.to
    ensures m in months ==> Create(parts, NameOf(m), r) == Ok(parts)
    ensures m !in months ==> NameOf(m) !in parts
    ensures m !in months ==>
              (Create(parts, NameOf(m), r).Ok? <==> forall k :: k in months ==> !Overlap(ranges(k), r))
  {
    hide NameOf;
    if m !in months && NameOf(m) in parts {
      var k :| k in months && NameOf(k) == NameOf(m);
      NamesInjective(k, m);
      assert false;
    }
    if m !in months && exists other :: other in parts && Overlap(parts[other], r) {
      var other :| other in parts && Overlap(parts[other], r);
      var k :| k in months && NameOf(k) == other;
      assert Overlap(ranges(k), r);
    }
  }

  lemma HoldsGrows(parts: Schema, ranges: nat -> Range, months: set<nat>, m: nat)
    requires Holds(parts, ranges, months) && m !in months
    ensures Holds(parts[NameOf(m) := ranges(m)], ranges, months + {m})
  {
    hide NameOf;
    forall k | k in months
      ensures NameOf(k) != NameOf(m)
    {
      if NameOf(k) == NameOf(m) {
        NamesInjective(k, m);
        assert false;
      }
    }
    assert m in months + {m};
  }

  /** The months a list of statements names. */
  function Named(months: seq<nat>): set<nat> {
    set m | m in months
  }

  function OneZone(zone: Offset): nat -> Range {
    (k: nat) => RangeOf(zone, k)
  }

  /** In one time zone no statement ever fails. Whatever the statements of however many runs,
      whole or broken off, one after another or interleaved: the schema holds exactly the
      months named so far, each with its own range, so IF NOT EXISTS skips only an identical
      partition and all partitions stay disjoint. */
  lemma {:induction false} AnyRuns(zone: Offset, parts: Schema, held: set<nat>, months: seq<nat>)
    requires IsZone(zone) && Holds(parts, OneZone(zone), held)
    ensures CreateAll(zone, parts, months).Ok?
    ensures Holds(CreateAll(zone, parts, months).value, OneZone(zone), held + Named(months))
    ensures Disjoint(CreateAll(zone, parts, months).value)
  {
    hide Disjoint, NameOf, MonthStart;
    if months == [] {
      assert held + Named(months) == held;
    } else {
      var front, m := months[..|months| - 1], months[|months| - 1];
      AnyRuns(zone, parts, held, front);
      var before := CreateAll(zone, parts, front).value;
      OneMore(zone, before, held + Named(front), m);
      assert months == front + [m];
      assert held + Named(months) == held + Named(front) + {m};
    }
    HeldDisjoint(zone, CreateAll(zone, parts, months).value, held + Named(months));
  }

  lemma OneMore(zone: Offset, parts: Schema, held: set<nat>, m: nat)
    requires IsZone(zone) && Holds(parts, OneZone(zone), held)
    ensures Create(parts, NameOf(m), RangeOf(zone, m)).Ok?
    ensures Holds(Create(parts, NameOf(m), RangeOf(zone, m)).value, OneZone(zone), held + {m})
  {
    hide NameOf, MonthStart, Overlap, Holds;
    Contiguous(zone, m);
    CreateWhen(parts, OneZone(zone), held, m, RangeOf(zone, m));
    if m in held {
      assert held + {m} == held;
    } else {
      forall k | k in held
        ensures !Overlap(OneZone(zone)(k), RangeOf(zone, m))
      {
        MonthsDisjoint(zone, k, m);
      }
      HoldsGrows(parts, OneZone(zone), held, m);
    }
  }

  ghost predicate Disjoint(parts: Schema) {
    forall a, b :: a in parts && b in parts && a != b ==> !Overlap(parts[a], parts[b])
  }

  /** Then no instant has two partitions. */
  lemma NoInstantTwice(parts: Schema, a: string, b: string, t: int)
    requires Disjoint(parts) && a in parts && b in parts && In(t, parts[a]) && In(t, parts[b])
    ensures a == b
  {
  }

  lemma HeldDisjoint(zone: Offset, parts: Schema, held: set<nat>)
    requires IsZone(zone) && Holds(parts, OneZone(zone), held)
    ensures Disjoint(parts)
  {
    hide NameOf, RangeOf, Overlap;
    forall a, b | a in parts && b in parts && a != b
      ensures !Overlap(parts[a], parts[b])
    {
      var j :| j in held && NameOf(j) == a;
      var k :| k in held && NameOf(k) == b;
      MonthsDisjoint(zone, j, k);
    }
  }

  /******* Runs in any zones *******/

  /** The zone each month was made in: what a history of runs on differently configured hosts
      leaves behind. */
  type Zones = nat -> Offset

  function MadeIn(zones: Zones): nat -> Range {
    (k: nat) => RangeOf(zones(k), k)
  }

  ghost predicate AllZones(zones: Zones) {
    forall k: nat :: IsZone(zones(k))
  }

  /** Months not held before are made in the given zone. */
  function Later(zones: Zones, held: set<nat>, zone: Offset): Zones {
    (k: nat) => if k in held then zones(k) else zone
  }

  function Span(a: nat, b: nat): (months: set<nat>)
    ensures forall k :: k in months <==> a <= k < b
  {
    if b <= a then {} else Span(a, b - 1) + {b - 1}
  }

  ghost predicate Covered(parts: Schema, t: int) {
    exists name :: name in parts && In(t, parts[name])
  }

  /** n months in a row from month m: what one run goes through. */
  function Window(m: nat, n: nat): (months: seq<nat>)
    ensures |months| == n && forall i :: 0 <= i < n ==> months[i] == m + i
  {
    seq(n, i requires 0 <= i => m + i)
  }

  lemma EarlierAnyZone(first: Offset, second: Offset, a: nat, b: nat)
    requires IsZone(first) && IsZone(second) && a < b
    ensures MonthStart(first, a) < MonthStart(second, b)
  {
    hide FirstDay;
    StartsApart(first, a, b);
  }

  /** The partitions beside month k leave room for it in this zone. */
  ghost predicate Fits(zones: Zones, held: set<nat>, zone: Offset, k: nat) {
    && (k > 0 && k - 1 in held ==> zone(k) <= zones(k - 1)(k))
    && (k + 1 in held ==> zones(k + 1)(k + 1) <= zone(k + 1))
  }

  /** Only the neighbours of a month can be in its way. */
  lemma OnlyNeighbours(zones: Zones, zone: Offset, j: nat, k: nat)
    requires IsZone(zones(j)) && IsZone(zone) && j != k
    ensures Overlap(MadeIn(zones)(j), RangeOf(zone, k)) <==>
              (j + 1 == k && zone(k) > zones(j)(k)) || (j == k + 1 && zones(j)(j) > zone(j))
  {
    hide FirstDay;
    if j < k {
      EarlierAnyZone(zones(j), zone, j, k + 1);
      if j + 1 < k {
        EarlierAnyZone(zones(j), zone, j + 1, k);
      }
    } else {
      EarlierAnyZone(zone, zones(j), k, j + 1);
      if k + 1 < j {
        EarlierAnyZone(zone, zones(j), k + 1, j);
      }
    }
  }

  lemma RoomExactly(zones: Zones, held: set<nat>, zone: Offset, k: nat)
    requires AllZones(zones) && IsZone(zone) && k !in held
    ensures Fits(zones, held, zone, k) <==> forall j :: j in held ==> !Overlap(MadeIn(zones)(j), RangeOf(zone, k))
  {
    hide MadeIn, RangeOf, Overlap, IsZone;
    forall j | j in held
      ensures IsZone(zones(j))
      ensures Overlap(MadeIn(zones)(j), RangeOf(zone, k)) <==>
                (j + 1 == k && zone(k) > zones(j)(k)) || (j == k + 1 && zones(j)(j) > zone(j))
    {
      OnlyNeighbours(zones, zone, j, k);
    }
  }

  /** One statement over any schema: a month that is there is skipped, a new one is made exactly
      when it fits between its neighbours. */
  lemma StatementExactly(zones: Zones, parts: Schema, held: set<nat>, zone: Offset, k: nat)
    requires AllZones(zones) && IsZone(zone) && Holds(parts, MadeIn(zones), held)
    ensures Create(parts, NameOf(k), RangeOf(zone, k)).Ok? <==> k in held || Fits(zones, held, zone, k)
    ensures Create(parts, NameOf(k), RangeOf(zone, k)).Ok? ==>
              Holds(Create(parts, NameOf(k), RangeOf(zone, k)).value, MadeIn(Later(zones, held, zone)), held + {k})
  {
    hide NameOf, MonthStart, Overlap, Fits, Holds, AllZones;
    Contiguous(zone, k);
    CreateWhen(parts, MadeIn(zones), held, k, RangeOf(zone, k));
    SameHeld(parts, MadeIn(zones), MadeIn(Later(zones, held, zone)), held);
    if k in held {
      assert held + {k} == held;
    } else {
      RoomExactly(zones, held, zone, k);
      HoldsGrows(parts, MadeIn(Later(zones, held, zone)), held, k);
    }
  }

  lemma SameHeld(parts: Schema, ranges: nat -> Range, others: nat -> Range, held: set<nat>)
    requires Holds(parts, ranges, held) && forall k :: k in held ==> ranges(k) == others(k)
    ensures Holds(parts, others, held)
  {
    hide NameOf;
  }

  /** A run over any schema goes through exactly when each month it has to make fits between the
      neighbours that were there before. */
  lemma {:induction false} RunExactly(zones: Zones, parts: Schema, held: set<nat>, zone: Offset, m: nat, n: nat)
    requires AllZones(zones) && IsZone(zone) && Holds(parts, MadeIn(zones), held)
    ensures CreateAll(zone, parts, Window(m, n)).Ok?
       <==> forall k :: m <= k < m + n && k !in held ==> Fits(zones, held, zone, k)
    ensures CreateAll(zone, parts, Window(m, n)).Ok? ==>
              Holds(CreateAll(zone, parts, Window(m, n)).value, MadeIn(Later(zones, held, zone)), held + Span(m, m + n))
  {
    hide NameOf, MonthStart, Holds, Create, CreateAll, MadeIn, Fits, AllZones, IsZone, Later;
    if n == 0 {
      assert Window(m, n) == [] && held + Span(m, m) == held;
      CreateNone(zone, parts);
      LaterHeld(zones, parts, held, zone);
    } else {
      RunExactly(zones, parts, held, zone, m, n - 1);
      var k := m + n - 1;
      assert Window(m, n) == Window(m, n - 1) + [k];
      CreateAllSnoc(zone, parts, Window(m, n - 1), k);
      if CreateAll(zone, parts, Window(m, n - 1)).Ok? {
        var before := CreateAll(zone, parts, Window(m, n - 1)).value;
        RunStep(zones, before, held, zone, m, k);
        assert held + Span(m, k) + {k} == held + Span(m, m + n);
      }
    }
  }

  lemma LaterHeld(zones: Zones, parts: Schema, held: set<nat>, zone: Offset)
    requires Holds(parts, MadeIn(zones), held)
    ensures Holds(parts, MadeIn(Later(zones, held, zone)), held)
  {
    hide NameOf, RangeOf, Holds;
    SameHeld(parts, MadeIn(zones), MadeIn(Later(zones, held, zone)), held);
  }

  lemma RunStep(zones: Zones, before: Schema, held: set<nat>, zone: Offset, m: nat, k: nat)
    requires AllZones(zones) && IsZone(zone) && m <= k
    requires Holds(before, MadeIn(Later(zones, held, zone)), held + Span(m, k))
    ensures Create(before, NameOf(k), RangeOf(zone, k)).Ok? <==> k in held || Fits(zones, held, zone, k)
    ensures Create(before, NameOf(k), RangeOf(zone, k)).Ok? ==>
              Holds(Create(before, NameOf(k), RangeOf(zone, k)).value, MadeIn(Later(zones, held, zone)),
                    held + Span(m, k) + {k})
  {
    hide NameOf, MonthStart, Holds, Create, RangeOf, IsZone;
    var now, there := Later(zones, held, zone), held + Span(m, k);
    assert AllZones(now);
    StatementExactly(now, before, there, zone, k);
    assert k !in held ==> (Fits(now, there, zone, k) <==> Fits(zones, held, zone, k));
    if Create(before, NameOf(k), RangeOf(zone, k)).Ok? {
      var after := Create(before, NameOf(k), RangeOf(zone, k)).value;
      LaterAgain(zones, held, zone, there + {k}, there, after);
    }
  }

  lemma LaterAgain(zones: Zones, held: set<nat>, zone: Offset, months: set<nat>, there: set<nat>, after: Schema)
    requires held <= there && Holds(after, MadeIn(Later(Later(zones, held, zone), there, zone)), months)
    ensures Holds(after, MadeIn(Later(zones, held, zone)), months)
  {
    hide NameOf, RangeOf, Holds;
    SameHeld(after, MadeIn(Later(Later(zones, held, zone), there, zone)), MadeIn(Later(zones, held, zone)), months);
  }

  datatype Statement = Statement(zone: Offset, month: nat)

  /** The schema after a history of statements of whatever runs; one that fails changes nothing. */
  function AfterAll(history: seq<Statement>): Schema {
    if history == [] then map[]
    else
      var before, last := AfterAll(history[..|history| - 1]), history[|history| - 1];
      var made := Create(before, NameOf(last.month), RangeOf(last.zone, last.month));
      if made.Ok? then made.value else before
  }

  /** Whatever runs in whatever zones came before, the schema is of the kind the theorems about
      runs are stated for. */
  lemma {:induction false} AnyHistory(history: seq<Statement>) returns (zones: Zones, held: set<nat>)
    requires forall i :: 0 <= i < |history| ==> IsZone(history[i].zone)
    ensures AllZones(zones) && Holds(AfterAll(history), MadeIn(zones), held)
  {
    hide NameOf, RangeOf, Holds, Create, Fits;
    if history == [] {
      zones, held := (k: nat) => UTC, {};
      EmptyHolds(MadeIn(zones));
    } else {
      var last := history[|history| - 1];
      zones, held := AnyHistory(history[..|history| - 1]);
      StatementExactly(zones, AfterAll(history[..|history| - 1]), held, last.zone, last.month);
      if Create(AfterAll(history[..|history| - 1]), NameOf(last.month), RangeOf(last.zone, last.month)).Ok? {
        zones, held := Later(zones, held, last.zone), held + {last.month};
      }
    }
  }

  lemma EmptyHolds(ranges: nat -> Range)
    ensures Holds(map[], ranges, {})
  {
  }

  /******* What a run covers *******/

  /** The partition of month k begins no later than that of month k - 1 ends. */
  predicate Joined(ranges: nat -> Range, k: nat) {
    k > 0 && ranges(k).from <= ranges(k - 1).to
  }

  /** The partitions of n months from month m, and their neighbours, leave no gap in the span
      those months have in a zone. */
  ghost predicate Seamless(ranges: nat -> Range, held: set<nat>, zone: Offset, m: nat, n: nat)
    requires n > 0
  {
    && (forall k :: m < k < m + n ==> Joined(ranges, k))
    && (ranges(m).from <= MonthStart(zone, m) || (m - 1 in held && Joined(ranges, m)))
    && (MonthStart(zone, m + n) <= ranges(m + n - 1).to || (m + n in held && Joined(ranges, m + n)))
  }

  /** An instant no more than a day from the first of month k, as UTC has it. */
  predicate NearTurn(k: int, t: int) {
    DAY_MS * FirstDay(k) - DAY_MS <= t <= DAY_MS * FirstDay(k) + DAY_MS
  }

  lemma FarFromTurn(zone: Offset, j: nat, k: nat, t: int)
    requires IsZone(zone) && NearTurn(k, t) && (j + 1 < k || k < j)
    ensures !In(t, RangeOf(zone, j))
  {
    hide FirstDay;
    if j + 1 < k {
      StartsApart(zone, j + 1, k);
    } else {
      StartsApart(zone, k, j);
    }
  }

  /** Around the turn from month k - 1 to month k only their two partitions can be. */
  lemma TurnUncovered(zones: Zones, parts: Schema, held: set<nat>, k: nat, t: int)
    requires AllZones(zones) && Holds(parts, MadeIn(zones), held) && NearTurn(k, t)
    requires k > 0 && k - 1 in held ==> MadeIn(zones)(k - 1).to <= t
    requires k in held ==> t < MadeIn(zones)(k).from
    ensures !Covered(parts, t)
  {
    hide NameOf, RangeOf, NearTurn, IsZone;
    forall name | name in parts
      ensures !In(t, parts[name])
    {
      var j :| j in held && NameOf(j) == name;
      assert IsZone(zones(j));
      if j + 1 < k || k < j {
        FarFromTurn(zones(j), j, k, t);
      }
    }
  }

  lemma MonthCovers(ranges: nat -> Range, parts: Schema, held: set<nat>, k: nat, t: int)
    requires Holds(parts, ranges, held) && k in held && In(t, ranges(k))
    ensures Covered(parts, t)
  {
    hide NameOf;
    assert NameOf(k) in parts;
  }

  /** With no gap between the partitions, each instant of the span has one. */
  lemma SeamlessCovers(zones: Zones, parts: Schema, held: set<nat>, zone: Offset, m: nat, n: nat, t: int)
    requires AllZones(zones) && IsZone(zone) && Holds(parts, MadeIn(zones), held) && Span(m, m + n) <= held
    requires n > 0 && Seamless(MadeIn(zones), held, zone, m, n)
    requires MonthStart(zone, m) <= t < MonthStart(zone, m + n)
    ensures Covered(parts, t)
  {
    hide Holds, Covered, MonthStart, AllZones;
    var ranges := MadeIn(zones);
    var i := Tiling(zone, m, n, t);
    var k := m + i;
    var j := if t < ranges(k).from then k - 1 else if ranges(k).to <= t then k + 1 else k;
    assert k in held;
    if t < ranges(k).from {
      assert Joined(ranges, k);
      assert j in held;
    } else if ranges(k).to <= t {
      assert Joined(ranges, k + 1);
      assert j in held;
    }
    NeighbourReaches(zones, zone, k, j, t);
    MonthCovers(ranges, parts, held, j, t);
  }

  lemma NeighbourReaches(zones: Zones, zone: Offset, k: nat, j: nat, t: int)
    requires AllZones(zones) && IsZone(zone) && MonthStart(zone, k) <= t < MonthStart(zone, k + 1)
    requires j + 1 == k ==> t < MadeIn(zones)(k).from && Joined(MadeIn(zones), k)
    requires j == k + 1 ==> MadeIn(zones)(k).to <= t && Joined(MadeIn(zones), k + 1)
    requires j == k ==> In(t, MadeIn(zones)(k))
    requires k - 1 <= j <= k + 1
    ensures In(t, MadeIn(zones)(j))
  {
    hide MonthStart;
    assert IsZone(zones(j));
    if j + 1 == k {
      EarlierAnyZone(zones(j), zone, j, k);
    } else if j == k + 1 {
      EarlierAnyZone(zone, zones(j), k + 1, j + 1);
    }
  }

  /** The instant at which a gap at the turn to month k begins. */
  function GapStart(ranges: nat -> Range, held: set<nat>, floor: int, k: nat): int {
    if k > 0 && k - 1 in held && floor < ranges(k - 1).to then ranges(k - 1).to else floor
  }

  lemma StartNearTurn(zone: Offset, k: nat)
    requires IsZone(zone)
    ensures NearTurn(k, MonthStart(zone, k))
  {
    hide FirstDay;
  }

  lemma InnerGap(zones: Zones, parts: Schema, held: set<nat>, zone: Offset, m: nat, n: nat, k: nat) returns (t: int)
    requires AllZones(zones) && IsZone(zone) && Holds(parts, MadeIn(zones), held) && Span(m, m + n) <= held
    requires m < k < m + n && !Joined(MadeIn(zones), k)
    ensures MonthStart(zone, m) <= t < MonthStart(zone, m + n) && !Covered(parts, t)
  {
    hide MonthStart, Holds, Covered, NearTurn;
    assert IsZone(zones(k - 1)) && IsZone(zones(k));
    t := MadeIn(zones)(k - 1).to;
    StartNearTurn(zones(k - 1), k);
    TurnUncovered(zones, parts, held, k, t);
    EarlierAnyZone(zone, zones(k - 1), m, k);
    EarlierAnyZone(zones(k), zone, k, m + n);
  }

  lemma FirstGap(zones: Zones, parts: Schema, held: set<nat>, zone: Offset, m: nat, n: nat) returns (t: int)
    requires AllZones(zones) && IsZone(zone) && Holds(parts, MadeIn(zones), held) && Span(m, m + n) <= held && n > 0
    requires MonthStart(zone, m) < MadeIn(zones)(m).from && !(m - 1 in held && Joined(MadeIn(zones), m))
    ensures MonthStart(zone, m) <= t < MonthStart(zone, m + n) && !Covered(parts, t)
  {
    hide MonthStart, Holds, Covered, NearTurn;
    assert IsZone(zones(m));
    t := GapStart(MadeIn(zones), held, MonthStart(zone, m), m);
    StartNearTurn(zone, m);
    if m > 0 {
      assert IsZone(zones(m - 1));
      StartNearTurn(zones(m - 1), m);
    }
    TurnUncovered(zones, parts, held, m, t);
    EarlierAnyZone(zones(m), zone, m, m + n);
  }

  lemma LastGap(zones: Zones, parts: Schema, held: set<nat>, zone: Offset, m: nat, n: nat) returns (t: int)
    requires AllZones(zones) && IsZone(zone) && Holds(parts, MadeIn(zones), held) && Span(m, m + n) <= held && n > 0
    requires MadeIn(zones)(m + n - 1).to < MonthStart(zone, m + n)
    requires !(m + n in held && Joined(MadeIn(zones), m + n))
    ensures MonthStart(zone, m) <= t < MonthStart(zone, m + n) && !Covered(parts, t)
  {
    hide MonthStart, Holds, Covered, NearTurn;
    assert IsZone(zones(m + n - 1));
    t := MadeIn(zones)(m + n - 1).to;
    StartNearTurn(zones(m + n - 1), m + n);
    TurnUncovered(zones, parts, held, m + n, t);
    EarlierAnyZone(zone, zones(m + n - 1), m, m + n);
  }

  /** A gap at any turn leaves an instant of the span without a partition. */
  lemma GapLeaves(zones: Zones, parts: Schema, held: set<nat>, zone: Offset, m: nat, n: nat) returns (t: int)
    requires AllZones(zones) && IsZone(zone) && Holds(parts, MadeIn(zones), held) && Span(m, m + n) <= held
    requires n > 0 && !Seamless(MadeIn(zones), held, zone, m, n)
    ensures MonthStart(zone, m) <= t < MonthStart(zone, m + n) && !Covered(parts, t)
  {
    hide MonthStart, Holds, Covered, MadeIn, AllZones, IsZone, Joined;
    if k: nat :| m < k < m + n && !Joined(MadeIn(zones), k) {
      t := InnerGap(zones, parts, held, zone, m, n, k);
    } else if MonthStart(zone, m) < MadeIn(zones)(m).from && !(m - 1 in held && Joined(MadeIn(zones), m)) {
      t := FirstGap(zones, parts, held, zone, m, n);
    } else {
      t := LastGap(zones, parts, held, zone, m, n);
    }
  }

  /** After a run over any schema, each instant of the months it names has a partition exactly
      when the partitions, old and new, leave no gap between them. */
  lemma RunCoversExactly(zones: Zones, parts: Schema, held: set<nat>, zone: Offset, m: nat, n: nat)
    requires AllZones(zones) && IsZone(zone) && Holds(parts, MadeIn(zones), held) && n > 0
    requires CreateAll(zone, parts, Window(m, n)).Ok?
    ensures CoversSpan(CreateAll(zone, parts, Window(m, n)).value, zone, m, n)
       <==> Seamless(MadeIn(Later(zones, held, zone)), held, zone, m, n)
  {
    hide Holds, Covered, MonthStart, CreateAll, MadeIn, AllZones, Later, IsZone, Seamless;
    RunExactly(zones, parts, held, zone, m, n);
    var after, now := CreateAll(zone, parts, Window(m, n)).value, Later(zones, held, zone);
    var there := held + Span(m, m + n);
    LaterZones(zones, held, zone);
    OutsideSame(MadeIn(now), held, zone, m, n);
    if Seamless(MadeIn(now), there, zone, m, n) {
      forall t | MonthStart(zone, m) <= t < MonthStart(zone, m + n)
        ensures Covered(after, t)
      {
        SeamlessCovers(now, after, there, zone, m, n, t);
      }
    } else {
      var t := GapLeaves(now, after, there, zone, m, n);
    }
  }

  ghost predicate CoversSpan(parts: Schema, zone: Offset, m: nat, n: nat) {
    forall t :: MonthStart(zone, m) <= t < MonthStart(zone, m + n) ==> Covered(parts, t)
  }

  lemma LaterZones(zones: Zones, held: set<nat>, zone: Offset)
    requires AllZones(zones) && IsZone(zone)
    ensures AllZones(Later(zones, held, zone))
  {
    hide IsZone;
  }

  lemma OutsideSame(ranges: nat -> Range, held: set<nat>, zone: Offset, m: nat, n: nat)
    requires n > 0
    ensures Seamless(ranges, held + Span(m, m + n), zone, m, n) <==> Seamless(ranges, held, zone, m, n)
  {
    hide MonthStart;
  }

  /** The schema that n months from month a in a row make of an empty one, in one zone. */
  lemma MadeFromScratch(zone: Offset, a: nat, b: nat)
    requires IsZone(zone) && a < b
    ensures CreateAll(zone, map[], Window(a, b - a)).Ok?
    ensures Holds(CreateAll(zone, map[], Window(a, b - a)).value, OneZone(zone), Span(a, b))
  {
    hide NameOf, MonthStart, CreateAll, Disjoint, RangeOf, Window;
    AnyRuns(zone, map[], {}, Window(a, b - a));
    NamedWindow(a, b - a);
    assert {} + Named(Window(a, b - a)) == Span(a, b);
  }

  lemma NamedWindow(m: nat, n: nat)
    ensures Named(Window(m, n)) == Span(m, m + n)
  {
    forall k | k in Span(m, m + n)
      ensures k in Window(m, n)
    {
      assert Window(m, n)[k - m] == k;
    }
  }

  /******* One zone after another *******/

  function Always(zone: Offset): Zones {
    (k: nat) => zone
  }

  /** Months a to b - 1, made in one zone. */
  lemma MadeAlways(zone: Offset, a: nat, b: nat)
    requires IsZone(zone) && a < b
    ensures AllZones(Always(zone)) && CreateAll(zone, map[], Window(a, b - a)).Ok?
    ensures Holds(CreateAll(zone, map[], Window(a, b - a)).value, MadeIn(Always(zone)), Span(a, b))
  {
    hide RangeOf, Holds, CreateAll, Window, IsZone;
    MadeFromScratch(zone, a, b);
    SameHeld(CreateAll(zone, map[], Window(a, b - a)).value, OneZone(zone), MadeIn(Always(zone)), Span(a, b));
  }

  /** Months a to b - 1 are there, made in one zone; a run in another zone names n months from
      any month m. Since a name that exists is taken whatever its range, the run goes through
      exactly when, if it has to make the month before the first, that month's end comes no
      later than the first begins, and, if it has to make the month after the last, its
      midnight comes no earlier than the last ends. */
  lemma SecondZoneRun(first: Offset, second: Offset, a: nat, b: nat, m: nat, n: nat)
    requires IsZone(first) && IsZone(second) && a < b
    ensures var made := CreateAll(first, map[], Window(a, b - a));
            && made.Ok?
            && (CreateAll(second, made.value, Window(m, n)).Ok?
                <==> (m < a <= m + n ==> first(a) <= second(a)) && (m <= b < m + n ==> second(b) <= first(b)))
  {
    hide MonthStart, CreateAll, Holds, MadeIn, Window, IsZone, AllZones, Fits, Always;
    MadeAlways(first, a, b);
    RunExactly(Always(first), CreateAll(first, map[], Window(a, b - a)).value, Span(a, b), second, m, n);
    forall k: nat | k !in Span(a, b)
      ensures Fits(Always(first), Span(a, b), second, k)
         <==> (k + 1 == a ==> first(a) <= second(a)) && (k == b ==> second(b) <= first(b))
    {
      FitsOfTwo(first, second, a, b, k);
    }
    TwoToMake(first, second, a, b, m, n);
  }

  lemma FitsOfTwo(first: Offset, second: Offset, a: nat, b: nat, k: nat)
    requires a < b && k !in Span(a, b)
    ensures Fits(Always(first), Span(a, b), second, k)
       <==> (k + 1 == a ==> first(a) <= second(a)) && (k == b ==> second(b) <= first(b))
  {
  }

  lemma TwoToMake(first: Offset, second: Offset, a: nat, b: nat, m: nat, n: nat)
    requires a < b
    requires forall k: nat :: k !in Span(a, b) ==>
               (Fits(Always(first), Span(a, b), second, k)
                <==> (k + 1 == a ==> first(a) <= second(a)) && (k == b ==> second(b) <= first(b)))
    ensures (forall k: nat :: m <= k < m + n && k !in Span(a, b) ==> Fits(Always(first), Span(a, b), second, k))
       <==> (m < a <= m + n ==> first(a) <= second(a)) && (m <= b < m + n ==> second(b) <= first(b))
  {
    hide Fits, Always;
    if m < a <= m + n {
      var k: nat := a - 1;
      assert m <= k < m + n && k !in Span(a, b);
      assert Fits(Always(first), Span(a, b), second, k) <==> first(a) <= second(a);
    }
    assert b !in Span(a, b);
    assert Fits(Always(first), Span(a, b), second, b) <==> second(b) <= first(b);
  }

  /** And of such a run that goes through: each instant of the months it names has a partition
      exactly when, if it names the first month there, that begins no later in its zone, and,
      if it names the last, that ends no earlier. */
  lemma SecondZoneCovers(first: Offset, second: Offset, a: nat, b: nat, m: nat, n: nat)
    requires IsZone(first) && IsZone(second) && a < b && n > 0
    requires m < a <= m + n ==> first(a) <= second(a)
    requires m <= b < m + n ==> second(b) <= first(b)
    ensures var made := CreateAll(first, map[], Window(a, b - a));
            && made.Ok?
            && var after := CreateAll(second, made.value, Window(m, n));
               after.Ok?
               && (CoversSpan(after.value, second, m, n)
                   <==> (m <= a < m + n ==> second(a) <= first(a)) && (m < b <= m + n ==> first(b) <= second(b)))
  {
    hide FirstDay, CreateAll, Holds, Window, IsZone, AllZones, CoversSpan, MadeIn, MonthStart, Seamless;
    SecondZoneRun(first, second, a, b, m, n);
    MadeAlways(first, a, b);
    RunCoversExactly(Always(first), CreateAll(first, map[], Window(a, b - a)).value, Span(a, b), second, m, n);
    SeamsOfTwo(first, second, a, b, m, n);
  }

  /** The zone that is ahead begins a month first. */
  lemma StartOrder(one: Offset, other: Offset, k: nat)
    ensures MonthStart(one, k) <= MonthStart(other, k) <==> other(k) <= one(k)
  {
    hide FirstDay;
  }

  /** Where the partitions of two zones meet. */
  lemma TurnOfTwo(first: Offset, second: Offset, a: nat, b: nat, k: nat)
    requires a < b && k > 0
    ensures var ranges := MadeIn(Later(Always(first), Span(a, b), second));
            Joined(ranges, k) <==> (k == a ==> second(a) <= first(a)) && (k == b ==> first(b) <= second(b))
  {
    hide MonthStart;
    StartOrder(first, second, k);
    StartOrder(second, first, k);
    var zones, before: nat := Later(Always(first), Span(a, b), second), k - 1;
    assert MadeIn(zones)(k) == RangeOf(if a <= k < b then first else second, k);
    assert MadeIn(zones)(before) == RangeOf(if a <= before < b then first else second, before) && before + 1 == k;
  }

  lemma EdgesOfTwo(first: Offset, second: Offset, a: nat, b: nat, k: nat)
    requires a < b
    ensures var ranges := MadeIn(Later(Always(first), Span(a, b), second));
            && (ranges(k).from <= MonthStart(second, k) <==> (a <= k < b ==> second(k) <= first(k)))
            && (MonthStart(second, k + 1) <= ranges(k).to <==> (a <= k < b ==> first(k + 1) <= second(k + 1)))
  {
    hide MonthStart;
    StartOrder(first, second, k);
    StartOrder(second, first, k + 1);
    var zones := Later(Always(first), Span(a, b), second);
    assert MadeIn(zones)(k) == RangeOf(if a <= k < b then first else second, k);
  }

  /** What the partitions are after such a run. */
  function OfTwo(first: Offset, second: Offset, a: nat, b: nat): nat -> Range {
    MadeIn(Later(Always(first), Span(a, b), second))
  }

  lemma InnerOfTwo(first: Offset, second: Offset, a: nat, b: nat, m: nat, n: nat)
    requires a < b
    ensures (forall k: nat :: m < k < m + n ==> Joined(OfTwo(first, second, a, b), k))
       <==> (m < a < m + n ==> second(a) <= first(a)) && (m < b < m + n ==> first(b) <= second(b))
  {
    hide Joined;
    var ranges := OfTwo(first, second, a, b);
    forall k: nat | k > 0
      ensures Joined(ranges, k) <==> (k == a ==> second(a) <= first(a)) && (k == b ==> first(b) <= second(b))
    {
      TurnOfTwo(first, second, a, b, k);
    }
    hide OfTwo;
    assert m < a < m + n ==> (Joined(ranges, a) <==> second(a) <= first(a));
    assert m < b < m + n ==> (Joined(ranges, b) <==> first(b) <= second(b));
  }

  lemma FirstOfTwo(first: Offset, second: Offset, a: nat, b: nat, m: nat)
    requires a < b
    ensures (OfTwo(first, second, a, b)(m).from <= MonthStart(second, m)
             || (m - 1 in Span(a, b) && Joined(OfTwo(first, second, a, b), m)))
       <==> (m == a ==> second(a) <= first(a))
  {
    hide MonthStart, Joined;
    EdgesOfTwo(first, second, a, b, m);
    if m > 0 {
      TurnOfTwo(first, second, a, b, m);
    }
  }

  lemma LastOfTwo(first: Offset, second: Offset, a: nat, b: nat, k: nat)
    requires a < b
    ensures (MonthStart(second, k + 1) <= OfTwo(first, second, a, b)(k).to
             || (k + 1 in Span(a, b) && Joined(OfTwo(first, second, a, b), k + 1)))
       <==> (k + 1 == b ==> first(b) <= second(b))
  {
    hide MonthStart, Joined;
    EdgesOfTwo(first, second, a, b, k);
    TurnOfTwo(first, second, a, b, k + 1);
  }

  lemma SeamsOfTwo(first: Offset, second: Offset, a: nat, b: nat, m: nat, n: nat)
    requires a < b && n > 0
    ensures Seamless(OfTwo(first, second, a, b), Span(a, b), second, m, n)
       <==> (m <= a < m + n ==> second(a) <= first(a)) && (m < b <= m + n ==> first(b) <= second(b))
  {
    hide MonthStart, Joined, OfTwo, Span;
    InnerOfTwo(first, second, a, b, m, n);
    FirstOfTwo(first, second, a, b, m);
    LastOfTwo(first, second, a, b, m + n - 1);
  }

  /** When the months after the last begin at a later midnight, the instants between the two
      midnights have no partition. */
  lemma ZoneGap(first: Offset, second: Offset, a: nat, b: nat, m: nat, n: nat, t: int)
    requires IsZone(first) && IsZone(second) && a <= m <= b && a < b < m + n
    requires MonthStart(first, b) <= t < MonthStart(second, b)
    ensures var made := CreateAll(first, map[], Window(a, b - a));
            && made.Ok?
            && var after := CreateAll(second, made.value, Window(m, n));
               after.Ok? && !Covered(after.value, t)
  {
    hide FirstDay, CreateAll, Holds, Window, IsZone, AllZones, Covered, Later;
    MadeAlways(first, a, b);
    var made := CreateAll(first, map[], Window(a, b - a)).value;
    SecondZoneRun(first, second, a, b, m, n);
    RunExactly(Always(first), made, Span(a, b), second, m, n);
    LaterZones(Always(first), Span(a, b), second);
    GapNear(first, second, b, t);
    TwoAt(first, second, a, b);
    TurnUncovered(Later(Always(first), Span(a, b), second), CreateAll(second, made, Window(m, n)).value,
                  Span(a, b) + Span(m, m + n), b, t);
  }

  lemma GapNear(first: Offset, second: Offset, b: nat, t: int)
    requires IsZone(first) && IsZone(second) && MonthStart(first, b) <= t <= MonthStart(second, b)
    ensures NearTurn(b, t)
  {
    hide FirstDay;
  }

  lemma TwoAt(first: Offset, second: Offset, a: nat, b: nat)
    requires a < b
    ensures MadeIn(Later(Always(first), Span(a, b), second))(b - 1).to == MonthStart(first, b)
    ensures MadeIn(Later(Always(first), Span(a, b), second))(b).from == MonthStart(second, b)
  {
    hide MonthStart;
    var zones, last: nat := Later(Always(first), Span(a, b), second), b - 1;
    assert last in Span(a, b) && last + 1 == b && b !in Span(a, b);
    assert MadeIn(zones)(last) == RangeOf(first, last) && MadeIn(zones)(b) == RangeOf(second, b);
  }

  /******* The schema script *******/

  /** The schema script makes April to December 2026 with UTC bounds, whatever the host. */
  const SCRIPT_FIRST: nat := 12 * 2026 + 3
  const SCRIPT_END: nat := 12 * 2027

  /** Its nine statements as it writes them: the names, and the bounds in milliseconds since the
      epoch, each statement ending where the next begins. */
  const SCRIPT_NAMES := [
    "clicks_y2026m04", "clicks_y2026m05", "clicks_y2026m06", "clicks_y2026m07", "clicks_y2026m08",
    "clicks_y2026m09", "clicks_y2026m10", "clicks_y2026m11", "clicks_y2026m12"]

  const SCRIPT_BOUNDS: seq<int> := [
    1775001600000, 1777593600000, 1780272000000, 1782864000000, 1785542400000,
    1788220800000, 1790812800000, 1793491200000, 1796083200000, 1798761600000]

  /** The schema its first n statements make. */
  function ScriptSchema(n: nat): Schema
    requires n <= 9
  {
    if n == 0 then map[]
    else ScriptSchema(n - 1)[ScriptName(n - 1) := ScriptRange(n - 1)]
  }

  function ScriptName(i: nat): string
    requires i < 9
  {
    SCRIPT_NAMES[i]
  }

  function ScriptRange(i: nat): Range
    requires i < 9
  {
    Range(SCRIPT_BOUNDS[i], SCRIPT_BOUNDS[i + 1])
  }

  /** The ranges it writes are those of its months in UTC. */
  lemma ScriptRanges(i: nat)
    requires i < 9
    ensures RangeOf(UTC, SCRIPT_FIRST + i) == ScriptRange(i)
  {
    ScriptBound(i);
    ScriptBound(i + 1);
  }

  lemma ScriptBound(i: nat)
    requires i <= 9
    ensures MonthStart(UTC, SCRIPT_FIRST + i) == SCRIPT_BOUNDS[i]
  {
    if i < 9 {
      assert FullYear(SCRIPT_FIRST + i) == 2026 && MonthOfYear(SCRIPT_FIRST + i) == 3 + i;
    } else {
      assert FullYear(SCRIPT_FIRST + i) == 2027 && MonthOfYear(SCRIPT_FIRST + i) == 0;
    }
  }

  /** The names it writes are those the runner makes. */
  lemma ScriptNames(i: nat)
    requires i < 9
    ensures NameOf(SCRIPT_FIRST + i) == ScriptName(i)
  {
    assert FullYear(SCRIPT_FIRST + i) == 2026 && MonthOfYear(SCRIPT_FIRST + i) + 1 == 4 + i;
    YearText();
    MonthText(4 + i);
    hide Decimal.Text, Decimal.Padded;
    assert "clicks_y" + "2026" + "m" == "clicks_y2026m";
  }

  lemma YearText()
    ensures Decimal.Text(2026) == "2026"
  {
    assert Decimal.Text(2) == "2" && Decimal.Text(20) == "20" && Decimal.Text(202) == "202";
  }

  lemma MonthText(month: nat)
    requires 4 <= month <= 12
    ensures Decimal.Padded(month) == ["04", "05", "06", "07", "08", "09", "10", "11", "12"][month - 4]
  {
    assert Decimal.Text(1) == "1";
  }

  /** So running it is running the model's statements for its nine months in UTC. */
  lemma {:induction false} ScriptMade(n: nat)
    requires n <= 9
    ensures CreateAll(UTC, map[], Window(SCRIPT_FIRST, n)) == Ok(ScriptSchema(n))
  {
    hide NameOf, RangeOf, Create, CreateAll, ScriptName, ScriptRange;
    if n == 0 {
      assert Window(SCRIPT_FIRST, 0) == [];
      CreateNone(UTC, map[]);
    } else {
      ScriptMade(n - 1);
      ScriptNames(n - 1);
      ScriptRanges(n - 1);
      var before, k := Window(SCRIPT_FIRST, n - 1), SCRIPT_FIRST + n - 1;
      assert Window(SCRIPT_FIRST, n) == before + [k];
      CreateAllSnoc(UTC, map[], before, k);
      NewMonthMade(UTC, before, k);
    }
  }

  /** In one zone a statement for a month not named before adds its partition. */
  lemma NewMonthMade(zone: Offset, months: seq<nat>, k: nat)
    requires IsZone(zone) && k !in months
    ensures CreateAll(zone, map[], months).Ok?
    ensures var parts := CreateAll(zone, map[], months).value;
            Create(parts, NameOf(k), RangeOf(zone, k)) == Ok(parts[NameOf(k) := RangeOf(zone, k)])
  {
    hide NameOf, RangeOf, Holds, Disjoint, CreateAll;
    EmptyHolds(OneZone(zone));
    AnyRuns(zone, map[], {}, months);
    var parts := CreateAll(zone, map[], months).value;
    OneMore(zone, parts, {} + Named(months), k);
    Contiguous(zone, k);
    CreateWhen(parts, OneZone(zone), {} + Named(months), k, RangeOf(zone, k));
  }

  /** Over the script's partitions, a run started in any month goes through exactly when, if its
      seven months meet April 2026 from before, the host is not behind UTC on 1 April 2026, and,
      if they reach past December 2026, not ahead of UTC on 1 January 2027: east of Greenwich,
      every run from July 2026 to January 2027 fails. */
  lemma RunAfterScript(zone: Offset, m: nat)
    requires IsZone(zone)
    ensures CreateAll(zone, ScriptSchema(9), Window(m, 7)).Ok?
       <==> (m < SCRIPT_FIRST <= m + 7 ==> 0 <= zone(SCRIPT_FIRST))
            && (m <= SCRIPT_END < m + 7 ==> zone(SCRIPT_END) <= 0)
  {
    hide CreateAll, Window, ScriptSchema;
    ScriptMade(9);
    SecondZoneRun(UTC, zone, SCRIPT_FIRST, SCRIPT_END, m, 7);
  }

  /** A run that goes through covers its seven months exactly when, if it names April 2026, the
      host is not ahead of UTC then, and, if it names December 2026, not behind UTC at its end. */
  lemma CoverageAfterScript(zone: Offset, m: nat)
    requires IsZone(zone)
    requires m < SCRIPT_FIRST <= m + 7 ==> 0 <= zone(SCRIPT_FIRST)
    requires m <= SCRIPT_END < m + 7 ==> zone(SCRIPT_END) <= 0
    ensures var after := CreateAll(zone, ScriptSchema(9), Window(m, 7));
            after.Ok?
            && (CoversSpan(after.value, zone, m, 7)
                <==> (m <= SCRIPT_FIRST < m + 7 ==> zone(SCRIPT_FIRST) <= 0)
                     && (m < SCRIPT_END <= m + 7 ==> 0 <= zone(SCRIPT_END)))
  {
    hide CreateAll, Window, CoversSpan, ScriptSchema;
    ScriptMade(9);
    SecondZoneCovers(UTC, zone, SCRIPT_FIRST, SCRIPT_END, m, 7);
  }

  const NEW_YORK_SUMMER: Offset := (m: int) => -14400000

  /** So a run started in March 2026 four hours west of Greenwich fails, although all seven of
      its months are in 2026: its March ends after the script's April begins. */
  lemma MarchRunFails()
    ensures forall m: int :: NEW_YORK_SUMMER(m) == -4 * 3600000
    ensures CreateAll(NEW_YORK_SUMMER, ScriptSchema(9), Window(SCRIPT_FIRST - 1, 7)).Error?
  {
    hide CreateAll, Window, ScriptSchema;
    RunAfterScript(NEW_YORK_SUMMER, SCRIPT_FIRST - 1);
  }
}
