/** Gregorian calendar arithmetic on `Date` triples: the month lengths, day
    comparisons, month stepping and the enumeration of a month's days that the
    calendar view takes from its date library. */
module Dates {
  import opened Types
  import opened Sequences

  predicate IsLeapYear(year: int) {
    (year % 4 == 0 && year % 100 != 0) || year % 400 == 0
  }

  function DaysInMonth(year: int, month: int): (n: int)
    requires 1 <= month <= 12
    ensures 28 <= n <= 31
    ensures n == 29 <==> month == 2 && IsLeapYear(year)
  {
    if month == 2 then (if IsLeapYear(year) then 29 else 28)
    else if month == 4 || month == 6 || month == 9 || month == 11 then 30
    else 31
  }

  /** The twelve month lengths add up to the length of the year. */
  lemma YearLength(year: int)
    ensures DaysInMonth(year, 1) + DaysInMonth(year, 2) + DaysInMonth(year, 3) + DaysInMonth(year, 4) +
            DaysInMonth(year, 5) + DaysInMonth(year, 6) + DaysInMonth(year, 7) + DaysInMonth(year, 8) +
            DaysInMonth(year, 9) + DaysInMonth(year, 10) + DaysInMonth(year, 11) + DaysInMonth(year, 12)
            == if IsLeapYear(year) then 366 else 365
  {
  }

  /** A date that denotes an actual day of the calendar. */
  predicate ValidDate(d: Date) {
    d.Date? && 1 <= d.month <= 12 && 1 <= d.day <= DaysInMonth(d.year, d.month)
  }

  /** `isSameDay`: both are valid dates on the same day (an invalid date is
      never the same day as anything). */
  predicate SameDay(a: Date, b: Date) {
    ValidDate(a) && ValidDate(b) && a == b
  }

  /** `isSameDay` is an equivalence on the valid dates: reflexive there,
      symmetric and transitive; a shared day implies a shared month; an invalid
      date is on no day. */
  lemma SameDayLaws(a: Date, b: Date, c: Date)
    ensures SameDay(a, a) <==> ValidDate(a)
    ensures SameDay(a, b) ==> SameDay(b, a) && SameMonth(a, b)
    ensures SameDay(a, b) && SameDay(b, c) ==> SameDay(a, c)
    ensures !SameDay(InvalidDate, a) && !SameDay(a, InvalidDate)
  {
  }

  /** `isSameMonth`. */
  predicate SameMonth(a: Date, b: Date) {
    ValidDate(a) && ValidDate(b) && a.year == b.year && a.month == b.month
  }

  /** Months counted from January of year 0. */
  function MonthIndex(d: Date): int
    requires d.Date?
  {
    d.year * 12 + (d.month - 1)
  }

  /** `addMonths(d, n)`: the same day of the month `n` months later (earlier for
      negative `n`), clamped to the last day of a shorter month. */
  function AddMonths(d: Date, n: int): (r: Date)
    requires ValidDate(d)
    ensures ValidDate(r)
    ensures MonthIndex(r) == MonthIndex(d) + n
    ensures r.day == Min(d.day, DaysInMonth(r.year, r.month))
  {
    var t := MonthIndex(d) + n;
    var year := t / 12;
    var month := t % 12 + 1;
    Date(year, month, Min(d.day, DaysInMonth(year, month)))
  }

  /** `nextMonth` followed by `previousMonth` comes back to the same year and
      month; the day can only have been clamped down, and a day that exists in
      every month (1-28) comes back unchanged. */
  lemma NextThenPreviousMonth(d: Date)
    requires ValidDate(d)
    ensures var r := AddMonths(AddMonths(d, 1), -1);
      r.year == d.year && r.month == d.month && r.day <= d.day && (d.day <= 28 ==> r == d)
  {
    var r := AddMonths(AddMonths(d, 1), -1);
    MonthIndexDetermines(r, d);
  }

  /** `previousMonth` followed by `nextMonth`, likewise. */
  lemma PreviousThenNextMonth(d: Date)
    requires ValidDate(d)
    ensures var r := AddMonths(AddMonths(d, -1), 1);
      r.year == d.year && r.month == d.month && r.day <= d.day && (d.day <= 28 ==> r == d)
  {
    var r := AddMonths(AddMonths(d, -1), 1);
    MonthIndexDetermines(r, d);
  }

  lemma MonthIndexDetermines(a: Date, b: Date)
    requires ValidDate(a) && ValidDate(b)
    requires MonthIndex(a) == MonthIndex(b)
    ensures a.year == b.year && a.month == b.month
  {
  }

  /** `eachDayOfInterval(startOfMonth, endOfMonth)`: the days of one month. */
  function MonthDays(year: int, month: int): (r: seq<Date>)
    requires 1 <= month <= 12
    ensures |r| == DaysInMonth(year, month)
    ensures forall d :: d in r <==> ValidDate(d) && d.year == year && d.month == month
    ensures forall i, j :: 0 <= i < j < |r| ==> r[i].Date? && r[j].Date? && r[i].day < r[j].day
  {
    var n := DaysInMonth(year, month);
    var r := seq(n, i requires 0 <= i < n => Date(year, month, i + 1));
    assert forall d :: ValidDate(d) && d.year == year && d.month == month ==> r[d.day - 1] == d;
    r
  }
}
