/** Monitoring equipment and its calibration events (addons/pm_qms_calibration/models). Days are ordinals. */
module Calibration {
  import opened Common
  import Calendar

  type Day = n: int | 1 <= n witness 1

  datatype Unit = Days | Months | Years
  datatype Lifecycle = InService | OutForCalibration | Quarantined | OutOfService | Retired
  datatype EventState = Draft | InProgress | AwaitingReview | Accepted | Cancelled
  datatype Outcome = Pass | Conditional | Fail | OutOfTolerance

  /** A fixed event code, or the code of a rolling renewal, which carries its day. */
  datatype Code = Named(name: string) | Renewal(base: string, start: Day)

  datatype Event = Event(code: Code, state: EventState, outcome: Outcome,
                         sent: Option<Day>, calibrated: Option<Day>, due: Option<Day>, impact: Option<nat>)

  /** An impact assessment of a failed event, with the start of the exposure and whether it is still open. */
  datatype Impact = Impact(event: nat, exposureStart: Option<Day>, exposureEnd: Day, isOpen: bool)

  datatype Settings = Settings(required: bool, unit: Unit, frequency: nat, dueSoon: nat)

  /** Events and assessments are numbered in the order they were created. */
  datatype Equipment = Equipment(settings: Settings, lifecycle: Lifecycle, events: seq<Event>, impacts: seq<Impact>)

  datatype Actor = Actor(manager: bool, administrator: bool)

  datatype Status = NotRequired | NoHistory | Current | DueSoon | Due | Overdue | Held(lifecycle: Lifecycle)

  // ----- dates -----

  /** _add_interval: days, calendar months, or years of twelve calendar months each. */
  function AddInterval(s: Settings, start: Day): (r: Day)
    requires 1 <= s.frequency
    ensures start < r
  {
    if s.unit.Days? then start + s.frequency
    else
      hide *;
      var months := if s.unit.Years? then 12 * s.frequency else s.frequency;
      var d := Calendar.FromOrdinal(start);
      Calendar.AddMonthsLater(d, months);
      Calendar.Ordinal(Calendar.AddMonths(d, months))
  }

  /** The same day of the month, or the last day of a month too short for it. */
  predicate SameOrLastDay(d: Calendar.Date, e: Calendar.Date)
    requires Calendar.Valid(e)
  {
    e.day == d.day || (e.day < d.day && e.day == Calendar.DaysInMonth(e.year, e.month))
  }

  /** A day that lies a whole interval after another: so many days, months of the calendar, or years of it. */
  predicate IntervalAfter(s: Settings, start: Day, r: Day) {
    var d, e := Calendar.FromOrdinal(start), Calendar.FromOrdinal(r);
    match s.unit
    case Days => r == start + s.frequency
    case Months => 12 * e.year + e.month == 12 * d.year + d.month + s.frequency && SameOrLastDay(d, e)
    case Years => e.year == d.year + s.frequency && e.month == d.month && SameOrLastDay(d, e)
  }

  lemma MonthsAhead(start: Day, n: nat)
    requires 1 <= n
    ensures var d := Calendar.FromOrdinal(start);
      var f := Calendar.AddMonths(d, n);
      && Calendar.Valid(f) && 1 <= Calendar.Ordinal(f) && Calendar.FromOrdinal(Calendar.Ordinal(f)) == f
      && 12 * f.year + f.month == 12 * d.year + d.month + n && SameOrLastDay(d, f)
  {
    var d := Calendar.FromOrdinal(start);
    Calendar.AddMonthsShifts(d, n);
    var f := Calendar.AddMonths(d, n);
    Calendar.OrdinalRoundTrip(f);
    Calendar.OrdinalByMonth(f);
    hide Calendar.AddMonths, Calendar.FromOrdinal, Calendar.Ordinal, Calendar.DaysInMonth, Calendar.DaysBeforeIndex,
         Calendar.MonthLength;
  }

  /** _add_interval ends exactly an interval after its start: on the calendar, not on an average of it. */
  lemma AddIntervalExactly(s: Settings, start: Day)
    requires 1 <= s.frequency
    ensures IntervalAfter(s, start, AddInterval(s, start))
  {
    if !s.unit.Days? {
      var n := if s.unit.Years? then 12 * s.frequency else s.frequency;
      MonthsAhead(start, n);
      var d := Calendar.FromOrdinal(start);
      var f := Calendar.AddMonths(d, n);
      assert AddInterval(s, start) == Calendar.Ordinal(f) && Calendar.FromOrdinal(AddInterval(s, start)) == f;
      hide Calendar.FromOrdinal, Calendar.AddMonths, Calendar.Ordinal, AddInterval, SameOrLastDay;
      if s.unit.Years? {
        WholeYears(d, f, s.frequency);
      }
    }
  }

  lemma WholeYears(d: Calendar.Date, f: Calendar.Date, n: nat)
    requires 1 <= d.month <= 12 && 1 <= f.month <= 12 && 12 * f.year + f.month == 12 * d.year + d.month + 12 * n
    ensures f.year == d.year + n && f.month == d.month
  {
  }

  /** The two date constraints on an event. */
  predicate DatesOrdered(e: Event) {
    && (e.sent.Some? && e.calibrated.Some? ==> e.sent.value <= e.calibrated.value)
    && (e.calibrated.Some? && e.due.Some? ==> e.calibrated.value < e.due.value)
  }

  predicate Passing(e: Event) { e.outcome.Pass? || e.outcome.Conditional? }

  // ----- roll-up and status -----

  predicate Counts(e: Event) { e.state.Accepted? && Passing(e) }

  /** 1 January 1900 stands in for a missing date. */
  function SortDay(e: Event): Day {
    if e.calibrated.Some? then e.calibrated.value else 693596
  }

  /** The last in the order of (date, number) among the accepted passing events. */
  function Latest(events: seq<Event>): (k: Option<nat>)
    ensures k.Some? ==> k.value < |events|
  {
    if events == [] then None
    else
      var n := |events| - 1;
      var k, e := Latest(events[..n]), events[n];
      if !Counts(e) then k
      else if k.Some? && SortDay(events[k.value]) > SortDay(e) then k
      else Some(n)
  }

  lemma {:induction false} LatestIsGreatest(events: seq<Event>)
    ensures Latest(events).None? <==> forall i :: 0 <= i < |events| ==> !Counts(events[i])
    ensures Latest(events).Some? ==>
      var k := Latest(events).value;
      Counts(events[k]) && forall i :: 0 <= i < |events| && Counts(events[i]) ==>
        SortDay(events[i]) < SortDay(events[k]) || (SortDay(events[i]) == SortDay(events[k]) && i <= k)
  {
    hide Counts, SortDay;
    if events != [] {
      var n := |events| - 1;
      LatestIsGreatest(events[..n]);
      assert forall i :: 0 <= i < n ==> events[..n][i] == events[i];
    }
  }

  function LatestEvent(s: Equipment): Option<Event> {
    var k := Latest(s.events);
    if k.None? then None else Some(s.events[k.value])
  }

  function NextDue(s: Equipment): Option<Day> {
    var e := LatestEvent(s);
    if e.None? then None else e.value.due
  }

  /** _compute_calibration_status on a given day. */
  function StatusOn(s: Equipment, today: Day): Status {
    if s.lifecycle.Quarantined? || s.lifecycle.OutForCalibration? || s.lifecycle.Retired? then Held(s.lifecycle)
    else if !s.settings.required then NotRequired
    else if NextDue(s).None? then NoHistory
    else ByDue(NextDue(s).value, today, s.settings.dueSoon)
  }

  function ByDue(due: Day, today: Day, window: nat): Status {
    if due < today then Overdue
    else if due == today then Due
    else if due <= today + window then DueSoon
    else Current
  }

  // ----- actions; None is a raised error, which leaves everything as it was -----

  datatype Action =
    | Create(event: Event)
    | Edit(k: nat, outcome: Outcome, sent: Option<Day>, calibrated: Option<Day>, due: Option<Day>)
    | Start(k: nat)
    | Submit(k: nat)
    | Accept(ks: seq<nat>)
    | Cancel(k: nat)
    | MarkOut
    | Quarantine
    | ReturnToService
    | CloseImpact(a: nat)

  function SetEvent(s: Equipment, k: nat, e: Event): Equipment
    requires k < |s.events|
  {
    s.(events := s.events[k := e])
  }

  /** The due date an acceptance leaves: filled in for a passing event of required equipment that has none. */
  function FilledDue(s: Settings, e: Event): Option<Day>
    requires 1 <= s.frequency && e.calibrated.Some?
  {
    if NeedsDue(s, e) then Some(AddInterval(s, e.calibrated.value)) else e.due
  }

  predicate NeedsDue(s: Settings, e: Event) { Passing(e) && e.due.None? && s.required }

  /** The accepted passing event before a failed one, and so the day its exposure starts. */
  function Exposure(events: seq<Event>, k: nat, until: Day, n: nat): (r: Option<nat>)
    requires n <= |events|
    ensures r.Some? ==> r.value < n && events[r.value].calibrated.Some? && events[r.value].calibrated.value <= until
  {
    if n == 0 then None
    else
      var earlier, e := Exposure(events, k, until, n - 1), events[n - 1];
      if n - 1 == k || !Counts(e) || e.calibrated.None? || until < e.calibrated.value then earlier
      else if earlier.Some? && events[earlier.value].calibrated.value > e.calibrated.value then earlier
      else Some(n - 1)
  }

  function FindImpact(impacts: seq<Impact>, k: nat): (r: Option<nat>)
    ensures r.Some? ==> r.value < |impacts| && impacts[r.value].event == k
  {
    if impacts == [] then None
    else
      var n := |impacts| - 1;
      var earlier := FindImpact(impacts[..n], k);
      if earlier.None? && impacts[n].event == k then Some(n) else earlier
  }

  /** _ensure_impact_assessment: the linked one, one found for the event, or a new one. */
  function EnsureImpact(s: Equipment, k: nat): (Equipment, nat)
    requires k < |s.events| && s.events[k].calibrated.Some?
  {
    var e, found := s.events[k], FindImpact(s.impacts, k);
    if e.impact.Some? then (s, e.impact.value)
    else if found.Some? then (s, found.value)
    else
      var until := e.calibrated.value;
      var last := Exposure(s.events, k, until, |s.events|);
      var start := if last.None? then None else s.events[last.value].calibrated;
      (s.(impacts := s.impacts + [Impact(k, start, until, true)]), |s.impacts|)
  }

  /** The events of a list exist and have their dates. */
  predicate Dated(events: seq<Event>, ks: seq<nat>) {
    forall k :: k in ks ==> k < |events| && events[k].calibrated.Some?
  }

  /** One turn of the first loop of action_accept: the date is required, a missing due date is filled in. */
  function Fill(s: Equipment, user: Actor, k: nat): (r: Option<Equipment>)
    requires 1 <= s.settings.frequency
    ensures r.Some? ==> k < |s.events| && s.events[k].calibrated.Some? && r.value.settings == s.settings
    ensures r.Some? ==>
      && |r.value.events| == |s.events|
      && r.value == s.(events := s.events[k := s.events[k].(due := r.value.events[k].due)])
  {
    if k >= |s.events| || s.events[k].calibrated.None? then None
    else
      var e := s.events[k];
      if !NeedsDue(s.settings, e) then Some(SetEvent(s, k, e.(due := e.due)))
      else
        var filled := e.(due := FilledDue(s.settings, e));
        if (e.state.Accepted? && !user.administrator) || !DatesOrdered(filled) then None
        else Some(SetEvent(s, k, filled))
  }

  function FillAll(s: Equipment, user: Actor, ks: seq<nat>): (r: Option<Equipment>)
    requires 1 <= s.settings.frequency
    ensures r.Some? ==> r.value.settings == s.settings && |r.value.events| == |s.events|
    ensures r.Some? ==> forall i :: 0 <= i < |s.events| ==> r.value.events[i].calibrated == s.events[i].calibrated
    ensures r.Some? ==> Dated(s.events, ks)
    decreases |ks|
  {
    if ks == [] then Some(s)
    else
      hide Fill;
      var t := Fill(s, user, ks[0]);
      if t.None? then None
      else
        var r := FillAll(t.value, user, ks[1..]);
        assert r.Some? ==> forall k :: k in ks ==> k == ks[0] || k in ks[1..];
        r
  }

  /** The state of all the events, written at once. */
  function MarkAll(events: seq<Event>, ks: seq<nat>): (r: seq<Event>)
    ensures |r| == |events|
    ensures forall i :: 0 <= i < |r| ==> r[i] == if i in ks then events[i].(state := Accepted) else events[i]
  {
    seq(|events|, i requires 0 <= i < |events| => if i in ks then events[i].(state := Accepted) else events[i])
  }

  /** One turn of the last loop: back in service, or an assessment and quarantine. */
  function Effect(s: Equipment, k: nat): (t: Equipment)
    requires k < |s.events| && s.events[k].calibrated.Some?
    ensures t.settings == s.settings && |t.events| == |s.events|
    ensures t.events == s.events[k := s.events[k].(impact := t.events[k].impact)]
    ensures forall i :: 0 <= i < |s.events| ==> t.events[i].calibrated == s.events[i].calibrated
    ensures t.impacts == s.impacts || |t.impacts| == |s.impacts| + 1
  {
    if Passing(s.events[k]) then
      assert s.events == s.events[k := s.events[k].(impact := s.events[k].impact)];
      s.(lifecycle := if s.lifecycle.Retired? then Retired else InService)
    else
      hide Exposure, FindImpact;
      var (t, a) := EnsureImpact(s, k);
      SetEvent(t, k, t.events[k].(impact := Some(a))).(lifecycle := Quarantined)
  }

  function Effects(s: Equipment, ks: seq<nat>): (t: Equipment)
    requires Dated(s.events, ks)
    ensures t.settings == s.settings && |t.events| == |s.events|
    decreases |ks|
  {
    if ks == [] then s
    else
      hide Effect;
      assert ks[0] in ks && forall k :: k in ks[1..] ==> k in ks;
      Effects(Effect(s, ks[0]), ks[1..])
  }

  /** action_accept. */
  function AcceptEvents(s: Equipment, user: Actor, ks: seq<nat>): (r: Option<Equipment>)
    requires 1 <= s.settings.frequency
    ensures r.Some? ==> r.value.settings == s.settings && |r.value.events| == |s.events| && Dated(s.events, ks)
  {
    hide FillAll, Effects;
    if !user.manager then None
    else
      var t := FillAll(s, user, ks);
      if t.None? then None else Some(Effects(t.value.(events := MarkAll(t.value.events, ks)), ks))
  }

  function Apply(s: Equipment, user: Actor, x: Action): Option<Equipment>
    requires 1 <= s.settings.frequency
  {
    match x
    case Create(e) =>
      var new_ := e.(state := Draft, impact := None);
      if DatesOrdered(new_) then Some(s.(events := s.events + [new_])) else None
    case Edit(k, outcome, sent, calibrated, due) =>
      if k >= |s.events| || s.events[k].state.Accepted? then None
      else
        var e := s.events[k].(outcome := outcome, sent := sent, calibrated := calibrated, due := due);
        if DatesOrdered(e) then Some(SetEvent(s, k, e)) else None
    case Start(k) =>
      if k >= |s.events| || !user.manager then None
      else Some(SetEvent(s, k, s.events[k].(state := InProgress)).(lifecycle := OutForCalibration))
    case Submit(k) => if k >= |s.events| then None else Some(SetEvent(s, k, s.events[k].(state := AwaitingReview)))
    case Accept(ks) => AcceptEvents(s, user, ks)
    case Cancel(k) =>
      if k >= |s.events| || !user.manager then None else Some(SetEvent(s, k, s.events[k].(state := Cancelled)))
    case MarkOut => if user.manager then Some(s.(lifecycle := OutForCalibration)) else None
    case Quarantine => if user.manager then Some(s.(lifecycle := Quarantined)) else None
    case ReturnToService =>
      if !user.manager || HasOpenImpact(s) then None
      else if LatestEvent(s).Some? && !Passing(LatestEvent(s).value) then None
      else Some(s.(lifecycle := InService))
    case CloseImpact(a) =>
      if a >= |s.impacts| then None else Some(s.(impacts := s.impacts[a := s.impacts[a].(isOpen := false)]))
  }

  predicate HasOpenImpact(s: Equipment) {
    exists a :: 0 <= a < |s.impacts| && s.impacts[a].isOpen
  }

  // ----- what acceptance guarantees -----

  /** The due date an acceptance fills in never trips the constraint, so acceptance never fails for it. */
  lemma FilledDueIsLater(s: Settings, e: Event)
    requires 1 <= s.frequency && e.calibrated.Some? && DatesOrdered(e)
    ensures DatesOrdered(e.(due := FilledDue(s, e)))
    ensures s.required && Passing(e) ==> FilledDue(s, e).Some? && e.calibrated.value < FilledDue(s, e).value
  {
  }

  /** An event that refuses the acceptance: it has no date, or its due date is missing in locked history. */
  predicate RefusesAcceptance(s: Settings, user: Actor, e: Event) {
    e.calibrated.None? || (NeedsDue(s, e) && e.state.Accepted? && !user.administrator)
  }

  lemma FillExactly(s: Equipment, user: Actor, k: nat)
    requires 1 <= s.settings.frequency && k < |s.events| && DatesOrdered(s.events[k])
    ensures Fill(s, user, k).None? <==> RefusesAcceptance(s.settings, user, s.events[k])
    ensures Fill(s, user, k).Some? ==> Fill(s, user, k).value == FilledAt(s, k)
  {
    if s.events[k].calibrated.Some? {
      FilledDueIsLater(s.settings, s.events[k]);
    }
    hide AddInterval;
  }

  function FilledAt(s: Equipment, k: nat): Equipment
    requires 1 <= s.settings.frequency && k < |s.events| && s.events[k].calibrated.Some?
  {
    SetEvent(s, k, s.events[k].(due := FilledDue(s.settings, s.events[k])))
  }

  /** The first loop fails exactly at an event that refuses, and otherwise fills every due date once. */
  lemma {:induction false} FillAllExactly(s: Equipment, user: Actor, ks: seq<nat>)
    requires 1 <= s.settings.frequency
    requires forall k :: k in ks ==> k < |s.events|
    requires forall i :: 0 <= i < |s.events| ==> DatesOrdered(s.events[i])
    ensures FillAll(s, user, ks).None? <==> exists k :: k in ks && RefusesAcceptance(s.settings, user, s.events[k])
    ensures FillAll(s, user, ks).Some? ==>
      var t := FillAll(s, user, ks).value;
      && t == s.(events := t.events)
      && forall i :: 0 <= i < |s.events| ==>
           && DatesOrdered(t.events[i])
           && t.events[i] == if i in ks then s.events[i].(due := FilledDue(s.settings, s.events[i])) else s.events[i]
    decreases |ks|
  {
    hide Fill, FilledDue, DatesOrdered, NeedsDue;
    if ks != [] {
      var k := ks[0];
      assert k in ks && ks == [k] + ks[1..];
      assert forall j :: j in ks[1..] ==> j in ks;
      FillExactly(s, user, k);
      if Fill(s, user, k).Some? {
        var t := FilledAt(s, k);
        FilledDueIsLater(s.settings, s.events[k]);
        FilledTwice(s.settings, s.events[k]);
        FillAllExactly(t, user, ks[1..]);
        RefusesAlike(s.settings, user, s.events[k]);
      }
    }
  }

  lemma FilledTwice(s: Settings, e: Event)
    requires 1 <= s.frequency && e.calibrated.Some?
    ensures var filled := e.(due := FilledDue(s, e)); FilledDue(s, filled) == FilledDue(s, e)
  {
    hide AddInterval;
  }

  lemma RefusesAlike(s: Settings, user: Actor, e: Event)
    requires 1 <= s.frequency && e.calibrated.Some? && !RefusesAcceptance(s, user, e)
    ensures !RefusesAcceptance(s, user, e.(due := FilledDue(s, e)))
  {
    hide AddInterval;
  }

  /** Acceptance fails exactly for the reasons the code names: no manager, or an event that refuses. */
  lemma AcceptFailsExactly(s: Equipment, user: Actor, ks: seq<nat>)
    requires Sound(s) && forall k :: k in ks ==> k < |s.events|
    ensures AcceptEvents(s, user, ks).None?
            <==> !user.manager || exists k :: k in ks && RefusesAcceptance(s.settings, user, s.events[k])
  {
    SoundDates(s);
    FillAllExactly(s, user, ks);
    hide FillAll, Effects, RefusesAcceptance, Sound;
  }

  lemma SoundDates(s: Equipment)
    requires Sound(s)
    ensures 1 <= s.settings.frequency && forall i :: 0 <= i < |s.events| ==> DatesOrdered(s.events[i])
  {
    hide DatesOrdered;
    assert forall i :: 0 <= i < |s.events| ==> EventSound(s.events[i], i, s.impacts);
  }

  /** An accepted event has its date; an assessment it is linked to is its own. */
  predicate EventBase(e: Event, k: nat, impacts: seq<Impact>) {
    && DatesOrdered(e)
    && (e.state.Accepted? ==> e.calibrated.Some?)
    && (e.impact.Some? ==> e.impact.value < |impacts| && impacts[e.impact.value].event == k)
  }

  /** A failed accepted event is linked to an assessment. */
  predicate EventSound(e: Event, k: nat, impacts: seq<Impact>) {
    EventBase(e, k, impacts) && (e.state.Accepted? && !Passing(e) ==> e.impact.Some?)
  }

  predicate ImpactSound(i: Impact, count: nat) {
    i.event < count && (i.exposureStart.Some? ==> i.exposureStart.value <= i.exposureEnd)
  }

  predicate Sound(s: Equipment) {
    && 1 <= s.settings.frequency
    && (forall k :: 0 <= k < |s.events| ==> EventSound(s.events[k], k, s.impacts))
    && (forall a :: 0 <= a < |s.impacts| ==> ImpactSound(s.impacts[a], |s.events|))
  }

  /** Events keep being sound when their own assessments stay and more are added or closed. */
  predicate Extends(before: seq<Impact>, after: seq<Impact>) {
    |before| <= |after| && forall a :: 0 <= a < |before| ==> before[a].event == after[a].event
  }

  lemma ReplaceEvent(s: Equipment, t: Equipment, k: nat, e: Event)
    requires Sound(s) && k < |s.events| && EventSound(e, k, t.impacts) && Extends(s.impacts, t.impacts)
    requires t.settings == s.settings && t.events == s.events[k := e]
    requires forall a :: 0 <= a < |t.impacts| ==> ImpactSound(t.impacts[a], |s.events|)
    ensures Sound(t)
  {
    hide DatesOrdered, Passing, ImpactSound;
    forall j | 0 <= j < |t.events|
      ensures EventSound(t.events[j], j, t.impacts)
    {
      assert EventSound(s.events[j], j, s.impacts);
    }
  }

  lemma ImpactEnsured(s: Equipment, k: nat)
    requires k < |s.events| && s.events[k].calibrated.Some?
    requires forall a :: 0 <= a < |s.impacts| ==> ImpactSound(s.impacts[a], |s.events|)
    requires s.events[k].impact.Some? ==>
               s.events[k].impact.value < |s.impacts| && s.impacts[s.events[k].impact.value].event == k
    ensures var (t, a) := EnsureImpact(s, k);
      && t.events == s.events && t.settings == s.settings && Extends(s.impacts, t.impacts)
      && a < |t.impacts| && t.impacts[a].event == k
      && forall b :: 0 <= b < |t.impacts| ==> ImpactSound(t.impacts[b], |t.events|)
  {
    hide Counts, Exposure, FindImpact;
  }

  /** Sound but for some failed events whose assessments are still to be made. */
  predicate SoundBut(s: Equipment, pending: seq<nat>) {
    && 1 <= s.settings.frequency
    && (forall k :: 0 <= k < |s.events| ==> EventSound(s.events[k], k, s.impacts)
                                            || (k in pending && EventBase(s.events[k], k, s.impacts)))
    && (forall a :: 0 <= a < |s.impacts| ==> ImpactSound(s.impacts[a], |s.events|))
  }

  lemma EffectSound(s: Equipment, k: nat, rest: seq<nat>)
    requires k < |s.events| && s.events[k].calibrated.Some? && SoundBut(s, [k] + rest)
    ensures SoundBut(Effect(s, k), rest)
  {
    var t := Effect(s, k);
    hide DatesOrdered, Passing, Effect;
    assert EventBase(s.events[k], k, s.impacts);
    EffectOn(s, k);
    hide EnsureImpact;
    forall j | 0 <= j < |t.events|
      ensures EventSound(t.events[j], j, t.impacts) || (j in rest && EventBase(t.events[j], j, t.impacts))
    {
      if j == k {
        assert EventSound(t.events[k], k, t.impacts);
      } else {
        assert EventSound(s.events[j], j, s.impacts) || (j in rest && EventBase(s.events[j], j, s.impacts));
      }
    }
  }

  /** What one turn of the last loop does to its own event and to the assessments. */
  lemma EffectOn(s: Equipment, k: nat)
    requires k < |s.events| && s.events[k].calibrated.Some? && EventBase(s.events[k], k, s.impacts)
    requires forall a :: 0 <= a < |s.impacts| ==> ImpactSound(s.impacts[a], |s.events|)
    ensures var t := Effect(s, k);
      && EventSound(t.events[k], k, t.impacts) && Extends(s.impacts, t.impacts)
      && (forall j :: 0 <= j < |s.events| && j != k ==> t.events[j] == s.events[j])
      && (forall a :: 0 <= a < |t.impacts| ==> ImpactSound(t.impacts[a], |t.events|))
  {
    hide DatesOrdered, Exposure, FindImpact;
    if !Passing(s.events[k]) {
      ImpactEnsured(s, k);
      hide EnsureImpact;
      SameDatesImpact(s.events[k], Effect(s, k).events[k].impact);
    }
  }

  lemma SameDatesImpact(e: Event, impact: Option<nat>)
    ensures DatesOrdered(e.(impact := impact)) <==> DatesOrdered(e)
  {
  }

  lemma {:induction false} EffectsSound(s: Equipment, ks: seq<nat>)
    requires Dated(s.events, ks) && SoundBut(s, ks)
    ensures Sound(Effects(s, ks))
    decreases |ks|
  {
    hide Effect, EventSound, EventBase, ImpactSound;
    if ks != [] {
      assert ks[0] in ks && ks == [ks[0]] + ks[1..];
      EffectSound(s, ks[0], ks[1..]);
      assert forall k :: k in ks[1..] ==> k in ks;
      EffectsSound(Effect(s, ks[0]), ks[1..]);
    }
  }

  /** After both the due dates and the states are written, only assessments are missing. */
  lemma MarkedSound(s: Equipment, t: Equipment, ks: seq<nat>)
    requires Sound(s) && Dated(s.events, ks) && t == s.(events := t.events) && |t.events| == |s.events|
    requires forall i :: 0 <= i < |s.events| ==> DatesOrdered(t.events[i])
    requires forall i :: 0 <= i < |s.events| ==>
      t.events[i] == if i in ks then s.events[i].(due := FilledDue(s.settings, s.events[i])) else s.events[i]
    ensures SoundBut(t.(events := MarkAll(t.events, ks)), ks)
  {
    hide FilledDue, DatesOrdered, ImpactSound;
    var u := t.(events := MarkAll(t.events, ks));
    forall i | 0 <= i < |u.events|
      ensures EventSound(u.events[i], i, u.impacts) || (i in ks && EventBase(u.events[i], i, u.impacts))
    {
      assert EventSound(s.events[i], i, s.impacts);
      SameDates(t.events[i], Accepted);
    }
  }

  lemma AcceptSound(s: Equipment, user: Actor, ks: seq<nat>)
    requires Sound(s) && AcceptEvents(s, user, ks).Some?
    ensures Sound(AcceptEvents(s, user, ks).value)
  {
    SoundDates(s);
    FillAllExactly(s, user, ks);
    var t := FillAll(s, user, ks).value;
    hide FillAll, Effects, RefusesAcceptance, Sound, SoundBut, FilledDue, DatesOrdered;
    MarkedSound(s, t, ks);
    EffectsSound(t.(events := MarkAll(t.events, ks)), ks);
  }

  /** Every action keeps the record sound. */
  lemma ApplySound(s: Equipment, user: Actor, x: Action)
    requires Sound(s) && Apply(s, user, x).Some?
    ensures Sound(Apply(s, user, x).value)
  {
    hide DatesOrdered, Passing, AcceptEvents, AddInterval, LatestEvent;
    var t := Apply(s, user, x).value;
    match x
    case Accept(ks) => AcceptSound(s, user, ks);
    case Create(_) =>
      assert forall j :: 0 <= j < |s.events| ==> t.events[j] == s.events[j];
    case Edit(k, outcome, sent, calibrated, due) =>
      assert EventSound(s.events[k], k, s.impacts);
      ReplaceEvent(s, t, k, t.events[k]);
    case Start(k) =>
      SameDates(s.events[k], InProgress);
      ReplaceEvent(s, t, k, t.events[k]);
    case Submit(k) =>
      SameDates(s.events[k], AwaitingReview);
      ReplaceEvent(s, t, k, t.events[k]);
    case Cancel(k) =>
      SameDates(s.events[k], Cancelled);
      ReplaceEvent(s, t, k, t.events[k]);
    case CloseImpact(a) =>
      assert forall j :: 0 <= j < |s.events| ==> EventSound(s.events[j], j, s.impacts);
    case MarkOut =>
    case Quarantine =>
    case ReturnToService =>
  }

  lemma SameDates(e: Event, state: EventState)
    ensures DatesOrdered(e.(state := state)) <==> DatesOrdered(e)
  {
  }

  /** The first refusal of a return to service is the only one: the roll-up never picks a failed event. */
  lemma ReturnRefusedExactly(s: Equipment, user: Actor)
    requires 1 <= s.settings.frequency
    ensures Apply(s, user, ReturnToService).None? <==> !user.manager || HasOpenImpact(s)
  {
    LatestIsGreatest(s.events);
    hide Latest, HasOpenImpact;
  }

  /** A run of actions from new equipment; an error leaves the state as it was. */
  function Run(s: Equipment, steps: seq<(Actor, Action)>): Equipment
    requires 1 <= s.settings.frequency
    ensures Run(s, steps).settings == s.settings
  {
    if steps == [] then s
    else
      var t, step := Run(s, steps[..|steps| - 1]), steps[|steps| - 1];
      hide AcceptEvents;
      var next := Apply(t, step.0, step.1);
      if next.None? then t
      else
        ApplyKeepsSettings(t, step.0, step.1);
        next.value
  }

  lemma ApplyKeepsSettings(s: Equipment, user: Actor, x: Action)
    requires 1 <= s.settings.frequency && Apply(s, user, x).Some?
    ensures Apply(s, user, x).value.settings == s.settings
  {
    hide AcceptEvents, DatesOrdered, LatestEvent, HasOpenImpact;
  }

  lemma {:induction false} RunSound(settings: Settings, steps: seq<(Actor, Action)>)
    requires 1 <= settings.frequency
    ensures Sound(Run(Equipment(settings, InService, [], []), steps))
    decreases |steps|
  {
    if steps != [] {
      RunSound(settings, steps[..|steps| - 1]);
      hide Apply, Sound;
      var t, step := Run(Equipment(settings, InService, [], []), steps[..|steps| - 1]), steps[|steps| - 1];
      if Apply(t, step.0, step.1).Some? {
        ApplySound(t, step.0, step.1);
      }
    }
  }

  /** The exposure of a failed event starts at the last passing event accepted up to its date, if there is one. */
  lemma {:induction false} ExposureIsLatest(events: seq<Event>, k: nat, until: Day, n: nat)
    requires n <= |events|
    ensures var r := Exposure(events, k, until, n);
      && (r.Some? ==> Counts(events[r.value]) && r.value != k)
      && forall i :: 0 <= i < n && i != k && Counts(events[i])
                     && events[i].calibrated.Some? && events[i].calibrated.value <= until ==>
           r.Some? && (events[i].calibrated.value < events[r.value].calibrated.value
                       || (events[i].calibrated.value == events[r.value].calibrated.value && i <= r.value))
  {
    hide Counts;
    if n > 0 {
      ExposureIsLatest(events, k, until, n - 1);
    }
  }

  lemma StillDated(before: seq<Event>, after: seq<Event>, ks: seq<nat>)
    requires ks != [] && Dated(before, ks) && |after| == |before|
    requires forall i :: 0 <= i < |before| ==> after[i].calibrated == before[i].calibrated
    ensures ks[0] < |before| && before[ks[0]].calibrated.Some? && Dated(after, ks[1..])
  {
    assert ks[0] in ks;
    forall k | k in ks[1..]
      ensures k in ks
    {
    }
  }

  /** One turn of the last loop, and then the rest. */
  lemma EffectsStep(s: Equipment, ks: seq<nat>)
    requires ks != [] && Dated(s.events, ks)
    ensures ks[0] < |s.events| && s.events[ks[0]].calibrated.Some?
    ensures var t := Effect(s, ks[0]); Dated(t.events, ks[1..]) && Effects(t, ks[1..]) == Effects(s, ks)
  {
    StillDated(s.events, s.events, ks);
    StillDated(s.events, Effect(s, ks[0]).events, ks);
    hide Effect, Dated;
  }

  // ----- the record itself -----

  class Instrument {
    const settings: Settings
    var lifecycle: Lifecycle
    var events: seq<Event>
    var impacts: seq<Impact>

    ghost predicate Valid() reads this { Sound(Contents()) }

    function Contents(): Equipment reads this { Equipment(settings, lifecycle, events, impacts) }

    constructor (settings: Settings)
      requires 1 <= settings.frequency
      ensures Valid() && Contents() == Equipment(settings, InService, [], [])
    {
      this.settings, lifecycle, events, impacts := settings, InService, [], [];
    }

    /** A new event starts as a draft. */
    method Create(user: Actor, e: Event) returns (ok: bool)
      requires Valid()
      modifies this
      ensures Valid() && Contents() == old(After(user, Action.Create(e)))
      ensures ok == old(Apply(Contents(), user, Action.Create(e)).Some?)
    {
      hide Sound, DatesOrdered;
      Kept(user, Action.Create(e));
      var draft := e.(state := Draft, impact := None);
      if !DatesOrdered(draft) {
        return false;
      }
      events := events + [draft];
      return true;
    }

    /** write on an event that is not accepted. */
    method Edit(user: Actor, k: nat, outcome: Outcome, sent: Option<Day>, calibrated: Option<Day>, due: Option<Day>)
      returns (ok: bool)
      requires Valid()
      modifies this
      ensures var x := Action.Edit(k, outcome, sent, calibrated, due);
        Valid() && Contents() == old(After(user, x)) && ok == old(Apply(Contents(), user, x).Some?)
    {
      hide Sound, DatesOrdered;
      Kept(user, Action.Edit(k, outcome, sent, calibrated, due));
      if k >= |events| || events[k].state.Accepted? {
        return false;
      }
      var e := events[k].(outcome := outcome, sent := sent, calibrated := calibrated, due := due);
      if !DatesOrdered(e) {
        return false;
      }
      events := events[k := e];
      return true;
    }

    /** action_start */
    method Start(user: Actor, k: nat) returns (ok: bool)
      requires Valid()
      modifies this
      ensures Valid() && Contents() == old(After(user, Action.Start(k)))
      ensures ok == old(Apply(Contents(), user, Action.Start(k)).Some?)
    {
      hide Sound;
      Kept(user, Action.Start(k));
      if k >= |events| || !user.manager {
        return false;
      }
      events := events[k := events[k].(state := InProgress)];
      lifecycle := OutForCalibration;
      return true;
    }

    /** action_submit_review */
    method Submit(user: Actor, k: nat) returns (ok: bool)
      requires Valid()
      modifies this
      ensures Valid() && Contents() == old(After(user, Action.Submit(k)))
      ensures ok == old(Apply(Contents(), user, Action.Submit(k)).Some?)
    {
      hide Sound;
      Kept(user, Action.Submit(k));
      if k >= |events| {
        return false;
      }
      events := events[k := events[k].(state := AwaitingReview)];
      return true;
    }

    /** The first loop of action_accept; what it wrote before an error is rolled back by the caller. */
    method FillDueDates(user: Actor, ks: seq<nat>) returns (ok: bool)
      requires 1 <= settings.frequency
      modifies this`events
      ensures ok == old(FillAll(Contents(), user, ks).Some?)
      ensures ok ==> Contents() == old(FillAll(Contents(), user, ks).value)
    {
      hide AddInterval, FilledDue, DatesOrdered;
      var i := 0;
      while i < |ks|
        invariant 0 <= i <= |ks|
        invariant FillAll(Contents(), user, ks[i..]) == FillAll(old(Contents()), user, ks)
      {
        var k := ks[i];
        assert ks[i..][0] == k && ks[i..][1..] == ks[i + 1..];
        if k >= |events| || events[k].calibrated.None? {
          return false;
        }
        if NeedsDue(settings, events[k]) {
          var due := FilledDue(settings, events[k]);
          if (events[k].state.Accepted? && !user.administrator) || !DatesOrdered(events[k].(due := due)) {
            return false;
          }
          events := events[k := events[k].(due := due)];
        } else {
          assert events == events[k := events[k].(due := events[k].due)];
        }
        i := i + 1;
      }
      ok := true;
    }

    /** One turn of the last loop of action_accept. */
    method TakeEffectOn(k: nat)
      requires k < |events| && events[k].calibrated.Some?
      modifies this
      ensures Contents() == old(Effect(Contents(), k))
    {
      hide Exposure, FindImpact;
      if Passing(events[k]) {
        if !lifecycle.Retired? {
          lifecycle := InService;
        }
      } else {
        var (ensured, a) := EnsureImpact(Contents(), k);
        impacts := ensured.impacts;
        events := events[k := events[k].(impact := Some(a))];
        lifecycle := Quarantined;
      }
    }

    /** The last loop of action_accept. */
    method TakeEffect(ks: seq<nat>)
      requires Dated(events, ks)
      modifies this
      ensures Contents() == old(Effects(Contents(), ks))
    {
      hide Effect;
      var i := 0;
      while i < |ks|
        invariant 0 <= i <= |ks|
        invariant Dated(events, ks[i..])
        invariant Effects(Contents(), ks[i..]) == old(Effects(Contents(), ks))
      {
        EffectsStep(Contents(), ks[i..]);
        assert ks[i..][1..] == ks[i + 1..];
        TakeEffectOn(ks[i]);
        i := i + 1;
      }
    }

    /** action_accept; a failure part way restores the record. */
    method Accept(user: Actor, ks: seq<nat>) returns (ok: bool)
      requires Valid()
      modifies this
      ensures Valid() && Contents() == old(After(user, Action.Accept(ks)))
      ensures ok == old(Apply(Contents(), user, Action.Accept(ks)).Some?)
    {
      hide Sound, FillAll, Effects;
      Kept(user, Action.Accept(ks));
      if !user.manager {
        return false;
      }
      var before := events;
      ok := FillDueDates(user, ks);
      if !ok {
        events := before;
        return;
      }
      events := MarkAll(events, ks);
      TakeEffect(ks);
    }

    /** The state after an action, unchanged when it raises. */
    function After(user: Actor, x: Action): Equipment
      reads this
      requires 1 <= settings.frequency
    {
      var next := Apply(Contents(), user, x);
      if next.Some? then next.value else Contents()
    }

    lemma Kept(user: Actor, x: Action)
      requires Valid()
      ensures 1 <= settings.frequency && Sound(After(user, x))
    {
      if Apply(Contents(), user, x).Some? {
        ApplySound(Contents(), user, x);
      }
    }
  }
}
