/** UTC instants: microseconds since 0001-01-01T00:00:00, split into a calendar date and a time of day. */
module Instants {
  import opened Calendar

  const SECOND := 1_000_000
  const HOUR := 3_600_000_000
  const DAY := 86_400_000_000

  function DateOf(t: nat): (d: Date)
    ensures Valid(d) && Ordinal(d) == t / DAY + 1
  {
    FromOrdinal(t / DAY + 1)
  }

  function TimeOfDay(t: nat): (r: nat)
    ensures r < DAY
  {
    t % DAY
  }

  function At(d: Date, time: nat): int
    requires Valid(d)
  {
    (Ordinal(d) - 1) * DAY + time
  }

  lemma DayAndTime(day: nat, time: nat)
    requires time < DAY
    ensures (day * DAY + time) / DAY == day && (day * DAY + time) % DAY == time
  {
  }

  lemma AtRoundTrip(d: Date, time: nat)
    requires Valid(d) && time < DAY
    ensures 0 <= At(d, time) && DateOf(At(d, time)) == d && TimeOfDay(At(d, time)) == time
  {
    OrdinalRoundTrip(d);
    DayAndTime(Ordinal(d) - 1, time);
    assert At(d, time) / DAY + 1 == Ordinal(d);
  }

  /** add_months on a datetime: the date moves, the time of day stays. */
  function ShiftMonths(t: nat, months: nat): int {
    AddMonthsShifts(DateOf(t), months);
    At(AddMonths(DateOf(t), months), TimeOfDay(t))
  }

  /** The dates of the two instants both clamp onto the last day of one target month. */
  predicate ClampTogether(a: nat, b: nat, months: nat) {
    Collide(DateOf(a), DateOf(b), months)
  }

  lemma InstantOrder(a: nat, b: nat)
    ensures a <= b <==> Ordinal(DateOf(a)) < Ordinal(DateOf(b))
                        || (DateOf(a) == DateOf(b) && TimeOfDay(a) <= TimeOfDay(b))
  {
    OrdinalOrder(DateOf(a), DateOf(b));
    assert a == (a / DAY) * DAY + a % DAY;
    assert b == (b / DAY) * DAY + b % DAY;
  }

  /**
   * Shifting instants by months keeps their order, except when clamping drops two dates of a
   * month onto one day and the earlier instant has the later time of day.
   */
  lemma ShiftMonthsOrder(a: nat, b: nat, n: nat)
    requires a <= b
    ensures ShiftMonths(a, n) <= ShiftMonths(b, n)
            <==> !(ClampTogether(a, b, n) && TimeOfDay(b) < TimeOfDay(a))
  {
    InstantOrder(a, b);
    if DateOf(a) == DateOf(b) {
    } else {
      AddMonthsCollide(DateOf(a), DateOf(b), n);
    }
  }

  lemma LeapDayCollides(a: Date, b: Date)
    requires a.year == b.year == 2024 && a.month == b.month == 2 && a.day == 28 && b.day == 29
    ensures Valid(a) && Valid(b) && Before(a, b) && Collide(a, b, 12)
  {
    assert (MonthIndex(a) + 12) / 12 == 2025 && (MonthIndex(a) + 12) % 12 == 1;
  }

  /** Noon of 28 February 2024 comes before, but expires after, midnight of 29 February 2024. */
  lemma ShiftMonthsReorders(noon: nat, midnight: nat)
    requires var d := DateOf(noon); d.year == 2024 && d.month == 2 && d.day == 28
    requires var d := DateOf(midnight); d.year == 2024 && d.month == 2 && d.day == 29
    requires TimeOfDay(noon) == 12 * HOUR && TimeOfDay(midnight) == 0
    ensures noon < midnight && ShiftMonths(noon, 12) > ShiftMonths(midnight, 12)
  {
    LeapDayCollides(DateOf(noon), DateOf(midnight));
    OrdinalOrder(DateOf(noon), DateOf(midnight));
    InstantOrder(noon, midnight);
    ShiftMonthsOrder(noon, midnight, 12);
  }

  /** Twelve months after an instant is 365 or 366 days after it. */
  lemma YearAhead(t: nat)
    ensures 365 * DAY <= ShiftMonths(t, 12) - t <= 366 * DAY
  {
    TwelveMonths(DateOf(t));
    assert t == (t / DAY) * DAY + t % DAY;
  }
}
