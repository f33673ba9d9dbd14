/** Calendar dates (DateOnly), date-times with their Kind (DateTime), and
    the two operations the system relies on: DateOnly.AddYears, which moves
    29 February to 28 February in a common year, and
    DateTime.SpecifyKind(Utc), which relabels an Unspecified value without
    moving its clock reading. */
module Dates {

  datatype Date = Date(year: int, month: int, day: int)

  predicate IsLeapYear(y: int)
  {
    y % 4 == 0 && (y % 100 != 0 || y % 400 == 0)
  }

  function DaysInMonth(y: int, m: int): int
  {
    if m == 2 then (if IsLeapYear(y) then 29 else 28)
    else if m == 4 || m == 6 || m == 9 || m == 11 then 30
    else 31
  }

  predicate ValidDate(d: Date)
  {
    1 <= d.month <= 12 && 1 <= d.day <= DaysInMonth(d.year, d.month)
  }

  /** Chronological order of calendar dates (DateOnly's < operator). */
  predicate DateLess(a: Date, b: Date)
  {
    a.year < b.year
    || (a.year == b.year && (a.month < b.month || (a.month == b.month && a.day < b.day)))
  }

  /** Order of (month, day) within a year, ignoring the year. */
  predicate MonthDayLess(a: Date, b: Date)
  {
    a.month < b.month || (a.month == b.month && a.day < b.day)
  }

  /** DateOnly.AddYears: same month and day n years later, except that
      29 February becomes 28 February when the target year is common. */
  function AddYears(d: Date, n: int): (r: Date)
    ensures r.year == d.year + n && r.month == d.month
    ensures r.day == d.day || (d.month == 2 && d.day == 29 && r.day == 28 && !IsLeapYear(d.year + n))
    ensures ValidDate(d) ==> ValidDate(r)
  {
    var y := d.year + n;
    if d.month == 2 && d.day == 29 && !IsLeapYear(y) then Date(y, 2, 28)
    else Date(y, d.month, d.day)
  }

  lemma DateLessIrreflexive(a: Date)
    ensures !DateLess(a, a)
  {
  }

  lemma DateLessTotal(a: Date, b: Date)
    ensures DateLess(a, b) || a == b || DateLess(b, a)
  {
  }

  // ------------------------------------------------------------ DateTime

  const TicksPerDay: int := 864_000_000_000

  /** Ticks (100 ns) elapsed since midnight. */
  type TimeOfDay = t: int | 0 <= t < TicksPerDay

  datatype DateTimeKind = Unspecified | Utc | Local

  datatype DateTime = DateTime(date: Date, time: TimeOfDay, kind: DateTimeKind)

  /** Chronological order of the clock readings (the Kind is not looked at,
      as DateTime's own comparison operators do). */
  predicate DateTimeLess(a: DateTime, b: DateTime)
  {
    DateLess(a.date, b.date) || (a.date == b.date && a.time < b.time)
  }

  /** The relabelling the controllers apply to an incoming date-time:
      an Unspecified value becomes Utc with the same clock reading. */
  function SpecifyUtcIfUnspecified(d: DateTime): (r: DateTime)
    ensures r.date == d.date && r.time == d.time
    ensures r.kind == (if d.kind == Unspecified then Utc else d.kind)
    ensures r.kind != Unspecified
  {
    if d.kind == Unspecified then d.(kind := Utc) else d
  }

  lemma SpecifyUtcIdempotent(d: DateTime)
    ensures SpecifyUtcIfUnspecified(SpecifyUtcIfUnspecified(d)) == SpecifyUtcIfUnspecified(d)
  {
  }

  /** The calendar date at midnight, as a date-only value read into a
      DateTime of unspecified kind. */
  function AtMidnight(d: Date): (r: DateTime)
    ensures r.date == d && r.time == 0 && r.kind == Unspecified
  {
    DateTime(d, 0, Unspecified)
  }
}
