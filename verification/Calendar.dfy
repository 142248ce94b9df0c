/** The Gregorian calendar that Python's datetime and calendar.monthrange implement, from year 1 on. */
module Calendar {

  datatype Date = Date(year: int, month: int, day: int)

  predicate Leap(year: int) {
    year % 4 == 0 && (year % 100 != 0 || year % 400 == 0)
  }

  function DaysIn(year: int, month: int): int {
    if month == 2 then (if Leap(year) then 29 else 28)
    else if month == 4 || month == 6 || month == 9 || month == 11 then 30
    else 31
  }

  predicate Valid(d: Date) {
    1 <= d.year && 1 <= d.month <= 12 && 1 <= d.day <= DaysIn(d.year, d.month)
  }

  function NextDay(d: Date): Date {
    if d.day < DaysIn(d.year, d.month) then Date(d.year, d.month, d.day + 1)
    else if d.month < 12 then Date(d.year, d.month + 1, 1)
    else Date(d.year + 1, 1, 1)
  }

  /** The date n days after 1 January of year 1, by counting the days. */
  function DateOf(n: nat): (d: Date)
    ensures Valid(d)
  {
    if n == 0 then Date(1, 1, 1) else NextDay(DateOf(n - 1))
  }

  function DaysBeforeYear(year: int): int {
    var p := year - 1;
    p * 365 + p / 4 - p / 100 + p / 400
  }

  function DaysBeforeMonth(year: int, month: int): int
    requires 1 <= month <= 13
  {
    if month == 1 then 0 else DaysBeforeMonth(year, month - 1) + DaysIn(year, month - 1)
  }

  /** The number of the day, by formula. */
  function DayNumber(d: Date): int
    requires 1 <= d.month <= 12
  {
    DaysBeforeYear(d.year) + DaysBeforeMonth(d.year, d.month) + d.day - 1
  }

  lemma Quotients(p: int)
    ensures (p + 1) / 4 == p / 4 + (if (p + 1) % 4 == 0 then 1 else 0)
    ensures (p + 1) / 100 == p / 100 + (if (p + 1) % 100 == 0 then 1 else 0)
    ensures (p + 1) / 400 == p / 400 + (if (p + 1) % 400 == 0 then 1 else 0)
  {
  }

  lemma Multiples(y: int)
    ensures y % 400 == 0 ==> y % 100 == 0
    ensures y % 100 == 0 ==> y % 4 == 0
  {
    assert y % 400 == 0 ==> y == 100 * (4 * (y / 400));
    assert y % 100 == 0 ==> y == 4 * (25 * (y / 100));
  }

  lemma YearLength(year: int)
    ensures DaysBeforeYear(year + 1) == DaysBeforeYear(year) + (if Leap(year) then 366 else 365)
  {
    Quotients(year - 1);
    Multiples(year);
  }

  lemma MonthsFill(year: int)
    ensures DaysBeforeMonth(year, 12) + 31 == if Leap(year) then 366 else 365
  {
    assert DaysBeforeMonth(year, 2) == 31;
    assert DaysBeforeMonth(year, 3) == 31 + DaysIn(year, 2);
    assert DaysBeforeMonth(year, 4) == 62 + DaysIn(year, 2);
    assert DaysBeforeMonth(year, 5) == 92 + DaysIn(year, 2);
    assert DaysBeforeMonth(year, 7) == DaysBeforeMonth(year, 5) + 61;
    assert DaysBeforeMonth(year, 9) == DaysBeforeMonth(year, 7) + 62;
    assert DaysBeforeMonth(year, 11) == DaysBeforeMonth(year, 9) + 61;
  }

  lemma NextDayNumber(d: Date)
    requires Valid(d)
    ensures DayNumber(NextDay(d)) == DayNumber(d) + 1
  {
    if d.month == 12 && d.day == 31 {
      YearLength(d.year);
      MonthsFill(d.year);
    }
  }

  lemma {:induction false} NumberOfDate(n: nat)
    ensures DayNumber(DateOf(n)) == n
    decreases n
  {
    if n > 0 {
      NumberOfDate(n - 1);
      NextDayNumber(DateOf(n - 1));
    }
  }

  lemma {:induction false} YearsGrow(y: int, z: int)
    requires y <= z
    ensures DaysBeforeYear(z) >= DaysBeforeYear(y) + 365 * (z - y)
    decreases z - y
  {
    if y < z {
      YearsGrow(y, z - 1);
      YearLength(z - 1);
    }
  }

  lemma {:induction false} MonthsGrow(year: int, m: int, n: int)
    requires 1 <= m < n <= 13
    ensures DaysBeforeMonth(year, n) >= DaysBeforeMonth(year, m) + DaysIn(year, m)
    decreases n
  {
    if m < n - 1 {
      MonthsGrow(year, m, n - 1);
    }
  }

  lemma WithinYear(d: Date)
    requires Valid(d)
    ensures DaysBeforeYear(d.year) <= DayNumber(d) < DaysBeforeYear(d.year + 1)
  {
    YearLength(d.year);
    MonthsFill(d.year);
    if d.month > 1 {
      MonthsGrow(d.year, 1, d.month);
    }
    if d.month < 12 {
      MonthsGrow(d.year, d.month, 12);
    }
  }

  lemma NumbersDiffer(a: Date, b: Date)
    requires Valid(a) && Valid(b) && DayNumber(a) == DayNumber(b)
    ensures a == b
  {
    WithinYear(a);
    WithinYear(b);
    if a.year < b.year {
      YearsGrow(a.year + 1, b.year);
    } else if b.year < a.year {
      YearsGrow(b.year + 1, a.year);
    } else if a.month < b.month {
      MonthsGrow(a.year, a.month, b.month);
    } else if b.month < a.month {
      MonthsGrow(a.year, b.month, a.month);
    }
  }

  /** Counting and formula are inverses. */
  lemma DateOfNumber(d: Date)
    requires Valid(d)
    ensures DayNumber(d) >= 0 && DateOf(DayNumber(d)) == d
  {
    WithinYear(d);
    YearsGrow(1, d.year);
    NumberOfDate(DayNumber(d));
    NumbersDiffer(DateOf(DayNumber(d)), d);
  }
}
