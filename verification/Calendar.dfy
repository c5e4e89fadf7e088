/**
 Months as the host's `Date` counts them, and the instants at which they begin.

 A month is numbered 12 * year + month with month 0 for January, so adding to the month
 carries into the year exactly as `new Date(year, month + i, 1)` does
 (src/database/postgres/pool_schema_manager/migrations/migrationRunner.js:84-85).
 */
module Calendar {
  const DAY_MS: int := 86400000

  /** The local zone: by how much local midnight on the first of each month runs ahead of UTC. */
  type Offset = int -> int

  ghost predicate IsZone(zone: Offset) {
    forall m {:trigger zone(m)} :: -DAY_MS <= zone(m) <= DAY_MS
  }

  function MonthIndex(year: int, month: int): int {
    12 * year + month
  }

  function FullYear(m: int): int {
    m / 12
  }

  function MonthOfYear(m: int): int {
    m % 12
  }

  predicate IsLeap(year: int) {
    year % 4 == 0 && (year % 100 != 0 || year % 400 == 0)
  }

  /** Days from 1 January 1970 to 1 January of a year (`DayFromYear` of ECMA-262). */
  function DayFromYear(year: int): int {
    365 * (year - 1970) + (year - 1969) / 4 - (year - 1901) / 100 + (year - 1601) / 400
  }

  function DaysBeforeMonth(month: int, leap: bool): int {
    var extra := if leap then 1 else 0;
    match month
    case 0 => 0
    case 1 => 31
    case 2 => 59 + extra
    case 3 => 90 + extra
    case 4 => 120 + extra
    case 5 => 151 + extra
    case 6 => 181 + extra
    case 7 => 212 + extra
    case 8 => 243 + extra
    case 9 => 273 + extra
    case 10 => 304 + extra
    case _ => 334 + extra
  }

  function MonthLength(m: int): int {
    var month := MonthOfYear(m);
    if month == 1 then if IsLeap(FullYear(m)) then 29 else 28
    else if month == 3 || month == 5 || month == 8 || month == 10 then 30
    else 31
  }

  /** Days from 1 January 1970 to the first of month m. */
  function FirstDay(m: int): int {
    DayFromYear(FullYear(m)) + DaysBeforeMonth(MonthOfYear(m), IsLeap(FullYear(m)))
  }

  /** The instant, in milliseconds, at which month m begins in a zone. */
  function MonthStart(zone: Offset, m: int): int {
    DAY_MS * FirstDay(m) - zone(m)
  }

  lemma By4(year: int)
    ensures (year - 1968) / 4 == (year - 1969) / 4 + if year % 4 == 0 then 1 else 0
  {
  }

  lemma By100(year: int)
    ensures (year - 1900) / 100 == (year - 1901) / 100 + if year % 100 == 0 then 1 else 0
  {
  }

  lemma By400(year: int)
    ensures (year - 1600) / 400 == (year - 1601) / 400 + if year % 400 == 0 then 1 else 0
    ensures year % 400 == 0 ==> year % 100 == 0
    ensures year % 100 == 0 ==> year % 4 == 0
  {
  }

  /** The leap rule and the closed form of `DayFromYear` agree. */
  lemma YearLength(year: int)
    ensures DayFromYear(year + 1) == DayFromYear(year) + if IsLeap(year) then 366 else 365
  {
    By4(year);
    By100(year);
    By400(year);
  }

  /** Consecutive months, also from December into January, begin one month's length apart. */
  lemma MonthsFollow(m: int)
    ensures FirstDay(m + 1) == FirstDay(m) + MonthLength(m)
  {
    hide DayFromYear, IsLeap;
    var year, month := m / 12, m % 12;
    if month == 11 {
      assert (m + 1) / 12 == year + 1 && (m + 1) % 12 == 0;
      YearLength(year);
    } else {
      assert (m + 1) / 12 == year && (m + 1) % 12 == month + 1;
    }
  }

  /** In any zone, a month begins at least 26 days before any later one. */
  lemma {:induction false} StartsApart(zone: Offset, a: int, b: int)
    requires IsZone(zone) && a < b
    ensures FirstDay(a) + 28 <= FirstDay(b)
    ensures MonthStart(zone, a) + 26 * DAY_MS <= MonthStart(zone, b)
    decreases b - a
  {
    hide FirstDay;
    MonthsFollow(b - 1);
    if a < b - 1 {
      StartsApart(zone, a, b - 1);
    }
  }

  /** A zone that keeps one offset is one exactly up to a day either way. */
  lemma FixedOffsets(ms: int)
    ensures IsZone((m: int) => ms) <==> -86400000 <= ms <= 86400000
  {
    var zone: Offset := (m: int) => ms;
    assert zone(0) == ms;
  }

  const UTC: Offset := (m: int) => 0

  /** The count of days is anchored: the epoch of ECMA-262 is the first day of January 1970. */
  lemma Epoch()
    ensures MonthStart(UTC, MonthIndex(1970, 0)) == 0
  {
  }
}
