/** The calendar that `app/agents/query_contracts.py` computes on: dates of years 1 to 9999 and their
    ordinals, as Python's `date` has them. */
module Gregorian {
  import opened Prelude

  datatype Date = Date(year: int, month: int, day: int)

  const MAX_YEAR := 9999
  const MAX_ORDINAL := 3_652_059

  predicate IsLeap(y: int) { y % 4 == 0 && (y % 100 != 0 || y % 400 == 0) }

  function DaysInMonth(y: int, m: int): (n: int)
    requires 1 <= m <= 12
    ensures 28 <= n <= 31
  {
    if m == 2 then (if IsLeap(y) then 29 else 28)
    else if m == 4 || m == 6 || m == 9 || m == 11 then 30
    else 31
  }

  predicate Valid(d: Date) {
    1 <= d.year <= MAX_YEAR && 1 <= d.month <= 12 && 1 <= d.day <= DaysInMonth(d.year, d.month)
  }

  function DaysBeforeYear(y: int): int {
    365 * (y - 1) + (y - 1) / 4 - (y - 1) / 100 + (y - 1) / 400
  }

  function DaysBeforeMonth(y: int, m: int): int
    requires 1 <= m <= 12
    decreases m
  {
    if m == 1 then 0 else DaysBeforeMonth(y, m - 1) + DaysInMonth(y, m - 1)
  }

  function Ordinal(d: Date): int
    requires Valid(d)
  {
    DaysBeforeYear(d.year) + DaysBeforeMonth(d.year, d.month) + d.day
  }

  function NextDay(d: Date): Date
    requires Valid(d)
  {
    if d.day < DaysInMonth(d.year, d.month) then d.(day := d.day + 1)
    else if d.month < 12 then Date(d.year, d.month + 1, 1)
    else Date(d.year + 1, 1, 1)
  }

  predicate Before(a: Date, b: Date) {
    a.year < b.year || (a.year == b.year && (a.month < b.month || (a.month == b.month && a.day < b.day)))
  }

  lemma LeapYearsAreLonger(y: int)
    ensures DaysBeforeYear(y + 1) == DaysBeforeYear(y) + if IsLeap(y) then 366 else 365
  {
    EveryFourth(y);
    EveryHundredth(y);
    EveryFourHundredth(y);
  }

  lemma EveryFourth(y: int)
    ensures y / 4 == (y - 1) / 4 + if y % 4 == 0 then 1 else 0
  {}

  lemma EveryHundredth(y: int)
    ensures y / 100 == (y - 1) / 100 + if y % 100 == 0 then 1 else 0
    ensures y % 100 == 0 ==> y % 4 == 0
  {}

  lemma EveryFourHundredth(y: int)
    ensures y / 400 == (y - 1) / 400 + if y % 400 == 0 then 1 else 0
    ensures y % 400 == 0 ==> y % 100 == 0
  {}

  lemma TwelveMonthsAreAYear(y: int)
    ensures DaysBeforeMonth(y, 12) + 31 == if IsLeap(y) then 366 else 365
  {
    assert DaysBeforeMonth(y, 3) == 31 + DaysInMonth(y, 2);
    assert DaysBeforeMonth(y, 5) == DaysBeforeMonth(y, 3) + 61;
    assert DaysBeforeMonth(y, 7) == DaysBeforeMonth(y, 5) + 61;
    assert DaysBeforeMonth(y, 9) == DaysBeforeMonth(y, 7) + 62;
    assert DaysBeforeMonth(y, 11) == DaysBeforeMonth(y, 9) + 61;
  }

  lemma {:induction false} MonthsAscend(y: int, m: int, n: int)
    requires 1 <= m <= n <= 12
    ensures m < n ==> DaysBeforeMonth(y, m) + DaysInMonth(y, m) <= DaysBeforeMonth(y, n)
    ensures DaysBeforeMonth(y, n) + DaysInMonth(y, n) <= if IsLeap(y) then 366 else 365
    decreases 12 - m, n - m
  {
    if m < n {
      MonthsAscend(y, m, n - 1);
      MonthEndsInYear(y, n);
    } else {
      MonthEndsInYear(y, n);
    }
  }

  lemma {:induction false} MonthEndsInYear(y: int, m: int)
    requires 1 <= m <= 12
    ensures DaysBeforeMonth(y, m) + DaysInMonth(y, m) <= if IsLeap(y) then 366 else 365
    decreases 12 - m
  {
    if m == 12 { TwelveMonthsAreAYear(y); } else { MonthEndsInYear(y, m + 1); }
  }

  lemma {:induction false} YearsAscend(y: int, z: int)
    requires 1 <= y <= z
    ensures y < z ==> DaysBeforeYear(y) + (if IsLeap(y) then 366 else 365) <= DaysBeforeYear(z)
    decreases z - y
  {
    if y < z {
      LeapYearsAreLonger(z - 1);
      YearsAscend(y, z - 1);
    }
  }

  /** The calendar order is the order of ordinals, so no two dates share one. */
  lemma OrdinalsAscend(a: Date, b: Date)
    requires Valid(a) && Valid(b)
    ensures Before(a, b) <==> Ordinal(a) < Ordinal(b)
    ensures a == b <==> Ordinal(a) == Ordinal(b)
  {
    hide DaysBeforeYear, DaysBeforeMonth, DaysInMonth, IsLeap;
    if Before(a, b) {
      BeforeIsLess(a, b);
    } else if a != b {
      BeforeIsLess(b, a);
    }
  }

  lemma BeforeIsLess(a: Date, b: Date)
    requires Valid(a) && Valid(b) && Before(a, b)
    ensures Ordinal(a) < Ordinal(b)
  {
    hide DaysBeforeYear, DaysBeforeMonth, DaysInMonth, IsLeap;
    MonthStarts(b.year, b.month);
    if a.year < b.year {
      MonthsAscend(a.year, a.month, a.month);
      YearsAscend(a.year, b.year);
    } else if a.month < b.month {
      MonthsAscend(a.year, a.month, b.month);
    }
  }

  lemma {:induction false} MonthStarts(y: int, m: int)
    requires 1 <= m <= 12
    ensures 0 <= DaysBeforeMonth(y, m)
    decreases m
  {
    if m > 1 { MonthStarts(y, m - 1); }
  }

  lemma LastOrdinal()
    ensures Ordinal(Date(MAX_YEAR, 12, 31)) == MAX_ORDINAL
  {
    TwelveMonthsAreAYear(MAX_YEAR);
    assert DaysBeforeYear(MAX_YEAR) == 3_651_694;
    assert DaysBeforeMonth(MAX_YEAR, 12) == 334;
  }

  function FirstDate(): (d: Date)
    ensures Valid(d) && Ordinal(d) == 1
  {
    Date(1, 1, 1)
  }

  lemma OrdinalRange(d: Date)
    requires Valid(d)
    ensures 1 <= Ordinal(d) <= MAX_ORDINAL
  {
    hide DaysBeforeMonth, DaysInMonth;
    MonthStarts(d.year, d.month);
    MonthsAscend(d.year, d.month, d.month);
    YearsAscend(1, d.year);
    LeapYearsAreLonger(d.year);
    YearsAscend(d.year + 1, MAX_YEAR + 1);
  }

  lemma NextDayIsNext(d: Date)
    requires Valid(d) && Ordinal(d) < MAX_ORDINAL
    ensures Valid(NextDay(d)) && Ordinal(NextDay(d)) == Ordinal(d) + 1
  {
    hide DaysBeforeYear, IsLeap;
    LastOrdinal();
    TwelveMonthsAreAYear(d.year);
    LeapYearsAreLonger(d.year);
    hide DaysBeforeMonth;
    if d.day == DaysInMonth(d.year, d.month) {
      if d.month < 12 {
        MonthStep(d.year, d.month);
      } else {
        assert d.year < MAX_YEAR;
        YearStart(d.year + 1);
      }
    }
  }

  lemma MonthStep(y: int, m: int)
    requires 1 <= m < 12
    ensures DaysBeforeMonth(y, m + 1) == DaysBeforeMonth(y, m) + DaysInMonth(y, m)
  {}

  lemma YearStart(y: int)
    ensures DaysBeforeMonth(y, 1) == 0
  {}

  /** `date.fromordinal`. */
  function FromOrdinal(n: int): (d: Date)
    requires 1 <= n <= MAX_ORDINAL
    ensures Valid(d) && Ordinal(d) == n
    decreases n
  {
    hide Ordinal, Valid, NextDay, FirstDate, Before;
    if n == 1 then FirstDate()
    else
      var before := FromOrdinal(n - 1);
      NextDayIsNext(before);
      NextDay(before)
  }

  /** `d + timedelta(days=k)`, with its OverflowError. */
  function AddDays(d: Date, k: int): (r: Option<Date>)
    requires Valid(d)
    ensures r.Some? <==> 1 <= Ordinal(d) + k <= MAX_ORDINAL
    ensures r.Some? ==> Valid(r.value) && Ordinal(r.value) == Ordinal(d) + k
  {
    if 1 <= Ordinal(d) + k <= MAX_ORDINAL then Some(FromOrdinal(Ordinal(d) + k)) else None
  }

  /** `weekday()`: Monday is 0. */
  function Weekday(d: Date): (r: int)
    requires Valid(d)
    ensures 0 <= r < 7
  {
    (Ordinal(d) + 6) % 7
  }

  /** The calendar is the civil one: 1 January 1970 is a Thursday and day 719163, every later day is one weekday on, and
      the months have their known lengths. */
  lemma KnownCalendar(y: int, d: Date)
    requires Valid(d)
    ensures Ordinal(Date(1970, 1, 1)) == 719_163 && Weekday(Date(1970, 1, 1)) == 3
    ensures Weekday(d) == (Ordinal(d) - 719_163 + 3) % 7
    ensures var lengths := [31, 28, 31, 30, 31, 30, 31, 31, 30, 31, 30, 31];
            forall m :: 1 <= m <= 12 ==>
              DaysInMonth(y, m) == lengths[m - 1] + if m == 2 && y % 4 == 0 && (y % 100 != 0 || y % 400 == 0) then 1 else 0
  {
    assert DaysBeforeMonth(1970, 1) == 0;
    hide DaysBeforeMonth, DaysBeforeYear;
    var lengths := [31, 28, 31, 30, 31, 30, 31, 31, 30, 31, 30, 31];
    assert lengths[0] == 31 && lengths[1] == 28 && lengths[2] == 31 && lengths[3] == 30 && lengths[4] == 31 && lengths[5] == 30;
    assert lengths[6] == 31 && lengths[7] == 31 && lengths[8] == 30 && lengths[9] == 31 && lengths[10] == 30 && lengths[11] == 31;
  }

  function FirstOfMonth(d: Date): (r: Date)
    requires Valid(d)
    ensures Valid(r)
  {
    d.(day := 1)
  }

  /** `_first_of_next_month`, with `date`'s ValueError past the last year. */
  function FirstOfNextMonth(d: Date): (r: Option<Date>)
    requires Valid(d)
    ensures r.Some? ==> Valid(r.value)
  {
    var next := Date(if d.month == 12 then d.year + 1 else d.year, d.month % 12 + 1, 1);
    if next.year <= MAX_YEAR then Some(next) else None
  }

  /** The first of the next month is what the month's own length leads to. */
  lemma MonthLength(d: Date)
    requires Valid(d) && FirstOfNextMonth(d).Some?
    ensures Ordinal(FirstOfNextMonth(d).value) == Ordinal(d.(day := 1)) + DaysInMonth(d.year, d.month)
  {
    hide DaysBeforeYear, IsLeap;
    TwelveMonthsAreAYear(d.year);
    LeapYearsAreLonger(d.year);
    hide DaysBeforeMonth;
    YearStart(d.year + 1);
    if d.month < 12 { MonthStep(d.year, d.month); }
  }
}
