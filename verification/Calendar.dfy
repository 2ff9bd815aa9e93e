/** The proleptic Gregorian calendar, as Python's datetime counts it. */
module Calendar {
  datatype Date = Date(year: int, month: int, day: int)

  predicate IsLeap(year: int) {
    year % 4 == 0 && (year % 100 != 0 || year % 400 == 0)
  }

  function DaysInMonth(year: int, month: int): int
    requires 1 <= month <= 12
  {
    if month == 2 then (if IsLeap(year) then 29 else 28)
    else if month == 4 || month == 6 || month == 9 || month == 11 then 30
    else 31
  }

  predicate Valid(d: Date) {
    1 <= d.year && 1 <= d.month <= 12 && 1 <= d.day <= DaysInMonth(d.year, d.month)
  }

  function DaysBeforeYear(year: int): int {
    (year - 1) * 365 + (year - 1) / 4 - (year - 1) / 100 + (year - 1) / 400
  }

  function DaysBeforeMonth(year: int, month: int): int
    requires 1 <= month <= 12
  {
    if month == 1 then 0 else DaysBeforeMonth(year, month - 1) + DaysInMonth(year, month - 1)
  }

  /** date.toordinal(): 1 January of year 1 is day 1. */
  function Ordinal(d: Date): int
    requires 1 <= d.month <= 12
  {
    DaysBeforeYear(d.year) + DaysBeforeMonth(d.year, d.month) + d.day
  }

  /** Months since year zero; two dates share an index exactly when they share year and month. */
  function MonthIndex(d: Date): int {
    12 * d.year + d.month - 1
  }

  function MonthLength(index: int): int {
    DaysInMonth(index / 12, index % 12 + 1)
  }

  /** The ordinal of the day before the month starts. */
  function DaysBeforeIndex(index: int): int {
    DaysBeforeYear(index / 12) + DaysBeforeMonth(index / 12, index % 12 + 1)
  }

  lemma MonthTable(year: int)
    ensures DaysBeforeMonth(year, 1) == 0
    ensures DaysBeforeMonth(year, 2) == 31
    ensures DaysBeforeMonth(year, 3) == 31 + DaysInMonth(year, 2)
    ensures forall m :: 3 <= m <= 12 ==> DaysBeforeMonth(year, m) == DaysBeforeMonth(1, m) + DaysInMonth(year, 2) - 28
    ensures DaysBeforeMonth(year, 12) + 31 == if IsLeap(year) then 366 else 365
  {
    forall m | 3 <= m <= 12
      ensures DaysBeforeMonth(year, m) == DaysBeforeMonth(1, m) + DaysInMonth(year, 2) - 28
    {
      MonthShift(year, m);
    }
    assert DaysBeforeMonth(1, 3) == 59;
    assert DaysBeforeMonth(1, 5) == 120;
    assert DaysBeforeMonth(1, 7) == 181;
    assert DaysBeforeMonth(1, 9) == 243;
    assert DaysBeforeMonth(1, 11) == 304;
    assert DaysBeforeMonth(1, 12) == 334;
  }

  lemma {:induction false} MonthShift(year: int, m: int)
    requires 3 <= m <= 12
    ensures DaysBeforeMonth(year, m) == DaysBeforeMonth(1, m) + DaysInMonth(year, 2) - 28
  {
    if m > 3 {
      MonthShift(year, m - 1);
    } else {
      assert DaysBeforeMonth(year, 2) == 31 && DaysBeforeMonth(1, 2) == 31;
    }
  }

  lemma Centuries(n: int)
    ensures n / 4 - (n - 1) / 4 == if n % 4 == 0 then 1 else 0
    ensures n / 100 - (n - 1) / 100 == if n % 100 == 0 then 1 else 0
    ensures n / 400 - (n - 1) / 400 == if n % 400 == 0 then 1 else 0
  {
  }

  lemma YearLength(year: int)
    ensures DaysBeforeYear(year + 1) == DaysBeforeYear(year) + if IsLeap(year) then 366 else 365
  {
    Centuries(year);
  }

  /** A month ends where the next one begins, across year ends too. */
  lemma MonthsAbut(index: int)
    ensures DaysBeforeIndex(index + 1) == DaysBeforeIndex(index) + MonthLength(index)
  {
    var year, month := index / 12, index % 12 + 1;
    if month < 12 {
      assert (index + 1) / 12 == year && (index + 1) % 12 + 1 == month + 1;
    } else {
      assert (index + 1) / 12 == year + 1 && (index + 1) % 12 == 0;
      MonthTable(year);
      YearLength(year);
    }
  }

  lemma {:induction false} MonthsOrdered(i: int, j: int)
    requires i < j
    ensures DaysBeforeIndex(i) + MonthLength(i) <= DaysBeforeIndex(j)
    decreases j - i
  {
    MonthsAbut(j - 1);
    if i < j - 1 {
      MonthsOrdered(i, j - 1);
    }
  }

  lemma OrdinalByMonth(d: Date)
    requires Valid(d)
    ensures MonthIndex(d) / 12 == d.year && MonthIndex(d) % 12 + 1 == d.month
    ensures Ordinal(d) == DaysBeforeIndex(MonthIndex(d)) + d.day
    ensures 1 <= d.day <= MonthLength(MonthIndex(d)) == DaysInMonth(d.year, d.month)
  {
  }

  predicate Before(a: Date, b: Date) {
    MonthIndex(a) < MonthIndex(b) || (MonthIndex(a) == MonthIndex(b) && a.day < b.day)
  }

  /** Ordinals order dates exactly as the calendar does, so they identify dates. */
  lemma OrdinalOrder(a: Date, b: Date)
    requires Valid(a) && Valid(b)
    ensures Before(a, b) <==> Ordinal(a) < Ordinal(b)
    ensures a == b <==> Ordinal(a) == Ordinal(b)
  {
    OrdinalByMonth(a);
    OrdinalByMonth(b);
    if MonthIndex(a) < MonthIndex(b) {
      MonthsOrdered(MonthIndex(a), MonthIndex(b));
    } else if MonthIndex(b) < MonthIndex(a) {
      MonthsOrdered(MonthIndex(b), MonthIndex(a));
    }
  }

  function FirstOfMonth(index: int): (d: Date)
    requires 12 <= index
    ensures Valid(d) && MonthIndex(d) == index && Ordinal(d) == DaysBeforeIndex(index) + 1
  {
    Date(index / 12, index % 12 + 1, 1)
  }

  lemma LastDayOfMonth(d: Date)
    requires Valid(d) && DaysInMonth(d.year, d.month) <= d.day
    ensures 12 <= MonthIndex(d) + 1 && DaysBeforeIndex(MonthIndex(d) + 1) == Ordinal(d)
  {
    hide DaysInMonth, DaysBeforeYear, DaysBeforeMonth, MonthLength, DaysBeforeIndex, Ordinal;
    OrdinalByMonth(d);
    MonthsAbut(MonthIndex(d));
  }

  function NextDay(d: Date): (r: Date)
    requires Valid(d)
    ensures Valid(r) && Ordinal(r) == Ordinal(d) + 1
  {
    if d.day < DaysInMonth(d.year, d.month) then Date(d.year, d.month, d.day + 1)
    else
      hide *;
      LastDayOfMonth(d);
      FirstOfMonth(MonthIndex(d) + 1)
  }

  /** The date with a given ordinal. */
  function FromOrdinal(n: int): (d: Date)
    requires 1 <= n
    ensures Valid(d) && Ordinal(d) == n
  {
    if n == 1 then Date(1, 1, 1) else NextDay(FromOrdinal(n - 1))
  }

  /** FromOrdinal undoes Ordinal. */
  lemma OrdinalRoundTrip(d: Date)
    requires Valid(d)
    ensures 1 <= Ordinal(d) && FromOrdinal(Ordinal(d)) == d
  {
    var first := Date(1, 1, 1);
    OrdinalOrder(first, d);
    OrdinalOrder(d, first);
    assert Ordinal(first) == 1;
    OrdinalOrder(FromOrdinal(Ordinal(d)), d);
  }

  function Min(a: int, b: int): int { if a < b then a else b }

  /** m29_backup.add_months and relativedelta(months=n): shift the month, clamp the day. */
  function AddMonths(d: Date, months: int): (r: Date)
    requires Valid(d)
  {
    var index := d.month - 1 + months;
    var year := d.year + index / 12;
    var month := index % 12 + 1;
    Date(year, month, Min(d.day, DaysInMonth(year, month)))
  }

  /** The month index moves by exactly n, the date is valid, and the day only ever shrinks to fit. */
  lemma AddMonthsShifts(d: Date, n: int)
    requires Valid(d) && 12 <= MonthIndex(d) + n
    ensures Valid(AddMonths(d, n))
    ensures MonthIndex(AddMonths(d, n)) == MonthIndex(d) + n
    ensures AddMonths(d, n).day == d.day || AddMonths(d, n).day == MonthLength(MonthIndex(d) + n) < d.day
  {
    var index := d.month - 1 + n;
    assert index == 12 * (index / 12) + index % 12;
    OrdinalByMonth(AddMonths(d, n));
  }

  /** Adding months never reorders dates. */
  lemma AddMonthsMonotone(a: Date, b: Date, n: int)
    requires Valid(a) && Valid(b) && Ordinal(a) <= Ordinal(b)
    requires 12 <= MonthIndex(a) + n
    ensures Valid(AddMonths(a, n)) && Valid(AddMonths(b, n))
    ensures Ordinal(AddMonths(a, n)) <= Ordinal(AddMonths(b, n))
  {
    OrdinalOrder(a, b);
    OrdinalOrder(b, a);
    assert !Before(b, a);
    AddMonthsShifts(a, n);
    AddMonthsShifts(b, n);
    OrdinalOrder(AddMonths(b, n), AddMonths(a, n));
  }

  /** Two dates of one month that both clamp onto the last day of the target month. */
  predicate Collide(a: Date, b: Date, n: int) {
    MonthIndex(a) == MonthIndex(b) && MonthLength(MonthIndex(a) + n) <= a.day
  }

  lemma AddMonthsDay(d: Date, n: int)
    requires Valid(d) && 12 <= MonthIndex(d) + n
    ensures Valid(AddMonths(d, n)) && MonthIndex(AddMonths(d, n)) == MonthIndex(d) + n
    ensures AddMonths(d, n).day == Min(d.day, MonthLength(MonthIndex(d) + n))
  {
    AddMonthsShifts(d, n);
    OrdinalByMonth(AddMonths(d, n));
  }

  lemma SameMonthAndDay(a: Date, b: Date)
    requires Valid(a) && Valid(b) && MonthIndex(a) == MonthIndex(b) && a.day == b.day
    ensures a == b
  {
    OrdinalByMonth(a);
    OrdinalByMonth(b);
  }

  /** Different dates land on one date exactly when they collide. */
  lemma AddMonthsCollide(a: Date, b: Date, n: int)
    requires Valid(a) && Valid(b) && 12 <= MonthIndex(a) + n
    requires Ordinal(a) < Ordinal(b)
    ensures Valid(AddMonths(a, n)) && Valid(AddMonths(b, n))
    ensures Collide(a, b, n) ==> Ordinal(AddMonths(a, n)) == Ordinal(AddMonths(b, n))
    ensures !Collide(a, b, n) ==> Ordinal(AddMonths(a, n)) < Ordinal(AddMonths(b, n))
  {
    hide Ordinal;
    OrdinalOrder(a, b);
    AddMonthsDay(a, n);
    AddMonthsDay(b, n);
    OrdinalOrder(AddMonths(a, n), AddMonths(b, n));
    if Collide(a, b, n) {
      SameMonthAndDay(AddMonths(a, n), AddMonths(b, n));
    }
  }

  /** One month or more ahead is strictly later, whatever the clamping. */
  lemma AddMonthsLater(d: Date, n: int)
    requires Valid(d) && 1 <= n
    ensures Valid(AddMonths(d, n)) && Ordinal(d) < Ordinal(AddMonths(d, n))
  {
    AddMonthsShifts(d, n);
    OrdinalOrder(d, AddMonths(d, n));
  }

  /** Twelve months are a common or a leap year, never more or less. */
  lemma TwelveMonths(d: Date)
    requires Valid(d)
    ensures Valid(AddMonths(d, 12))
    ensures 365 <= Ordinal(AddMonths(d, 12)) - Ordinal(d) <= 366
  {
    AddMonthsShifts(d, 12);
    var r := AddMonths(d, 12);
    assert r.year == d.year + 1 && r.month == d.month;
    YearLength(d.year);
    MonthTable(d.year);
    MonthTable(d.year + 1);
  }
}
