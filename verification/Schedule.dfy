/** The fixed four-hour UTC slots of tools/backup/m29_scheduler.py. */
module Schedule {
  import opened Instants

  const SLOT := 4 * HOUR
  const HOURS: seq<nat> := [0, 4, 8, 12, 16, 20]
  const RPO := 6 * HOUR
  const MAX_JITTER := 30 * 60 * SECOND

  /** A full hour of the UTC day that the schedule lists. */
  predicate IsSlot(t: nat) {
    t % HOUR == 0 && TimeOfDay(t) / HOUR in HOURS
  }

  function NextSlot(t: nat): nat { (t / SLOT + 1) * SLOT }

  lemma AtLeastOnce(d: int, k: int)
    requires 0 < k
    ensures d >= 1 ==> d * k >= k
    ensures d <= -1 ==> d * k <= -k
  {
    if d >= 1 {
      assert d * k == (d - 1) * k + k;
    } else if d <= -1 {
      assert d * k == (d + 1) * k - k;
    }
  }

  lemma DivisionUnique(t: nat, k: nat, q: nat, r: nat)
    requires 0 < k && r < k && t == q * k + r
    ensures t / k == q && t % k == r
  {
    var q', r' := t / k, t % k;
    assert (q - q') * k == r' - r by {
      assert t == q' * k + r';
      assert (q - q') * k == q * k - q' * k;
    }
    AtLeastOnce(q - q', k);
  }

  /** Day, hour and remainder of an instant, and where it stands among multiples of four hours. */
  lemma DayHour(t: nat) returns (day: nat, hour: nat, rest: nat)
    ensures hour < 24 && rest < HOUR && t == day * DAY + hour * HOUR + rest && day == t / DAY
    ensures TimeOfDay(t) / HOUR == hour && t % HOUR == rest
    ensures t / SLOT == 6 * day + hour / 4 && t % SLOT == (hour % 4) * HOUR + rest
  {
    day := t / DAY;
    var time := t % DAY;
    hour, rest := time / HOUR, time % HOUR;
    DivisionUnique(t, HOUR, 24 * day + hour, rest);
    DivisionUnique(t, SLOT, 6 * day + hour / 4, (hour % 4) * HOUR + rest);
  }

  lemma SlotIsMultiple(t: nat)
    ensures IsSlot(t) <==> t % SLOT == 0
  {
    var day, hour, rest := DayHour(t);
    hide TimeOfDay;
    assert hour in HOURS <==> hour == 0 || hour == 4 || hour == 8 || hour == 12 || hour == 16 || hour == 20;
  }

  lemma NextSlotBounds(t: nat)
    ensures t < NextSlot(t) <= t + SLOT && NextSlot(t) % SLOT == 0
  {
    var q, r := t / SLOT, t % SLOT;
    assert t == q * SLOT + r;
    DivisionUnique(NextSlot(t), SLOT, q + 1, 0);
  }

  lemma MultipleAfter(t: nat, s: nat)
    requires t < s && s % SLOT == 0
    ensures NextSlot(t) <= s
  {
    var q, r, p := t / SLOT, t % SLOT, s / SLOT;
    assert t == q * SLOT + r && s == p * SLOT;
    assert q < p;
  }

  /** NextSlot is the least slot strictly after its argument, at most four hours later. */
  lemma NextSlotIsLeast(t: nat)
    ensures IsSlot(NextSlot(t)) && t < NextSlot(t) <= t + SLOT
    ensures forall s: nat :: t < s && IsSlot(s) ==> NextSlot(t) <= s
  {
    SlotIsMultiple(NextSlot(t));
    NextSlotBounds(t);
    forall s: nat | t < s && IsSlot(s)
      ensures NextSlot(t) <= s
    {
      SlotIsMultiple(s);
      MultipleAfter(t, s);
    }
  }

  /** next_scheduled_run: the first listed hour of the day that is still ahead, else midnight. */
  method NextScheduledRun(value: nat) returns (r: nat)
    ensures r == NextSlot(value)
  {
    ghost var day, hour, rest := DayHour(value);
    var midnight := value / DAY * DAY;
    var i := 0;
    while i < |HOURS|
      invariant 0 <= i <= |HOURS|
      invariant i == 0 || midnight + HOURS[i - 1] * HOUR <= value
    {
      var candidate := midnight + HOURS[i] * HOUR;
      if candidate > value {
        CandidateIsNext(value, day, hour, rest, i);
        return candidate;
      }
      i := i + 1;
    }
    assert HOURS[5] == 20;
    return midnight + DAY;
  }

  lemma CandidateIsNext(value: nat, day: nat, hour: nat, rest: nat, i: nat)
    requires hour < 24 && rest < HOUR && value == day * DAY + hour * HOUR + rest
    requires value / SLOT == 6 * day + hour / 4
    requires i < 6 && value < day * DAY + HOURS[i] * HOUR
    requires i == 0 || day * DAY + HOURS[i - 1] * HOUR <= value
    ensures day * DAY + HOURS[i] * HOUR == NextSlot(value)
  {
    assert HOURS[i] == 4 * i;
    assert i == 0 || HOURS[i - 1] == 4 * (i - 1);
    assert i != 0;
    assert 4 * (i - 1) <= hour < 4 * i;
    assert hour / 4 == i - 1;
  }

  /** The k-th slot from a given one, following the scheduler's own next-run rule. */
  function SlotAt(first: nat, k: nat): nat {
    if k == 0 then first else NextSlot(SlotAt(first, k - 1))
  }

  lemma {:induction false} SlotsAreFourHoursApart(first: nat, k: nat)
    requires IsSlot(first)
    ensures SlotAt(first, k) == first + k * SLOT && IsSlot(SlotAt(first, k))
  {
    SlotIsMultiple(first);
    if k > 0 {
      SlotsAreFourHoursApart(first, k - 1);
      NextSlotIsLeast(SlotAt(first, k - 1));
      SlotIsMultiple(SlotAt(first, k - 1));
    }
  }

  /** A start within less than a slot's length after a slot expects the following slot next. */
  lemma NextOfLateStart(first: nat, k: nat, start: nat)
    requires IsSlot(first) && SlotAt(first, k) <= start < SlotAt(first, k) + SLOT
    ensures NextSlot(start) == SlotAt(first, k + 1)
  {
    SlotsAreFourHoursApart(first, k);
    var slot := SlotAt(first, k);
    SlotIsMultiple(slot);
    DivisionUnique(slot, SLOT, slot / SLOT, 0);
    DivisionUnique(start, SLOT, slot / SLOT, start - slot);
    hide IsSlot;
  }
}
