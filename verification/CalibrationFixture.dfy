/** The rolling calibration fixtures of deployment/demo/seed_demo.py. */
module CalibrationFixture {
  import opened Common
  import opened Calibration

  /** A fixture: the code of its first event, the status it keeps, and its cadence and interval in days. */
  datatype Fixture = Fixture(base: string, expected: Status, cadence: nat, interval: nat)

  /** The day a renewal is dated, calibration_fixture_period. */
  function PeriodStart(f: Fixture, today: Day): nat
    requires 1 <= f.cadence
  {
    today - today % f.cadence
  }

  function Find(events: seq<Event>, code: Code): (r: Option<nat>)
    ensures r.Some? ==> r.value < |events| && events[r.value].code == code
    ensures r.None? ==> forall k :: 0 <= k < |events| ==> events[k].code != code
  {
    if events == [] then None
    else
      var n := |events| - 1;
      var earlier := Find(events[..n], code);
      if earlier.None? && events[n].code == code then Some(n) else earlier
  }

  function Certificate(f: Fixture, code: Code, day: Day): Event
    requires 1 <= f.interval
  {
    Event(code, Draft, Pass, None, Some(day), Some(day + f.interval), None)
  }

  /** upsert_calibration_event: accepted history is reused unchanged, anything else is reconciled. */
  function Upsert(s: Equipment, user: Actor, f: Fixture, code: Code, day: Day): Option<Equipment>
    requires 1 <= s.settings.frequency && 1 <= f.interval
  {
    var found, e := Find(s.events, code), Certificate(f, code, day);
    if found.None? then Apply(s, user, Create(e))
    else if s.events[found.value].state.Accepted? then Some(s)
    else Apply(s, user, Edit(found.value, e.outcome, s.events[found.value].sent, e.calibrated, e.due))
  }

  function When(condition: bool, s: Equipment, user: Actor, x: Action): Option<Equipment>
    requires 1 <= s.settings.frequency
  {
    if condition then Apply(s, user, x) else Some(s)
  }

  function StateOf(s: Equipment, k: nat): EventState
    requires k < |s.events|
  {
    s.events[k].state
  }

  /** ensure_calibration_event_state with the target accepted. */
  function EnsureAccepted(s: Equipment, user: Actor, k: nat): Option<Equipment>
    requires k < |s.events| && 1 <= s.settings.frequency
  {
    hide AcceptEvents;
    var a := When(StateOf(s, k).Draft?, s, user, Start(k));
    if a.None? then None
    else
      Unchanged(StateOf(s, k).Draft?, s, user, Start(k));
      var b := When(StateOf(a.value, k).InProgress?, a.value, user, Submit(k));
      if b.None? then None
      else
        Unchanged(StateOf(a.value, k).InProgress?, a.value, user, Submit(k));
        var c := When(StateOf(b.value, k).AwaitingReview?, b.value, user, Accept([k]));
        if c.None? then None
        else
          Unchanged(StateOf(b.value, k).AwaitingReview?, b.value, user, Accept([k]));
          if StateOf(c.value, k).Accepted? then c else None
  }

  lemma Unchanged(condition: bool, s: Equipment, user: Actor, x: Action)
    requires 1 <= s.settings.frequency && When(condition, s, user, x).Some?
    requires x.Start? || x.Submit? || x.Accept?
    ensures var t := When(condition, s, user, x).value; t.settings == s.settings && |t.events| == |s.events|
  {
    hide AcceptEvents, DatesOrdered;
  }

  /** Upserting and accepting the event of a code on its day. */
  function Certified(s: Equipment, user: Actor, f: Fixture, code: Code, day: Day): Option<Equipment>
    requires 1 <= s.settings.frequency && 1 <= f.interval
  {
    var upserted := Upsert(s, user, f, code, day);
    if upserted.None? then None
    else
      UpsertHolds(s, user, f, code, day);
      var k := Find(upserted.value.events, code);
      if k.None? then None else EnsureAccepted(upserted.value, user, k.value)
  }

  lemma UpsertHolds(s: Equipment, user: Actor, f: Fixture, code: Code, day: Day)
    requires 1 <= s.settings.frequency && 1 <= f.interval && Upsert(s, user, f, code, day).Some?
    ensures Upsert(s, user, f, code, day).value.settings == s.settings
  {
    hide AcceptEvents;
  }

  lemma CertifiedHolds(s: Equipment, user: Actor, f: Fixture, code: Code, day: Day)
    requires 1 <= s.settings.frequency && 1 <= f.interval && Certified(s, user, f, code, day).Some?
    ensures Certified(s, user, f, code, day).value.settings == s.settings
  {
    UpsertHolds(s, user, f, code, day);
    var t := Upsert(s, user, f, code, day).value;
    var k := Find(t.events, code).value;
    hide AcceptEvents, Apply, When;
    var a := When(StateOf(t, k).Draft?, t, user, Start(k)).value;
    Unchanged(StateOf(t, k).Draft?, t, user, Start(k));
    var b := When(StateOf(a, k).InProgress?, a, user, Submit(k)).value;
    Unchanged(StateOf(a, k).InProgress?, a, user, Submit(k));
    Unchanged(StateOf(b, k).AwaitingReview?, b, user, Accept([k]));
  }

  /** ensure_relative_calibration_fixture: renews when the status is off; None is the error it raises. */
  function Renew(s: Equipment, user: Actor, f: Fixture, today: Day): Option<Equipment>
    requires 1 <= s.settings.frequency
  {
    if StatusOn(s, today) == f.expected then Some(s)
    else if f.cadence < 1 || f.interval < 1 || PeriodStart(f, today) < 1 then None
    else
      var renewed := Certified(s, user, f, Renewal(f.base, PeriodStart(f, today)), PeriodStart(f, today));
      if renewed.None? || StatusOn(renewed.value, today) != f.expected then None else renewed
  }

  /** What a seed run does for one fixture: its first event, then the renewal. */
  function SeedDay(s: Equipment, user: Actor, f: Fixture, today: Day): Option<Equipment>
    requires 1 <= s.settings.frequency && 1 <= f.interval
  {
    var first := Certified(s, user, f, Named(f.base), today);
    if first.None? then None
    else
      CertifiedHolds(s, user, f, Named(f.base), today);
      Renew(first.value, user, f, today)
  }

  function Seeds(settings: Settings, user: Actor, f: Fixture, days: seq<Day>): (r: Option<Equipment>)
    requires 1 <= settings.frequency && 1 <= f.interval
    ensures r.Some? ==> r.value.settings == settings
    decreases |days|
  {
    if days == [] then Some(Equipment(settings, InService, [], []))
    else
      var earlier := Seeds(settings, user, f, days[..|days| - 1]);
      if earlier.None? then None
      else
        hide Certified, Renew;
        SeedDayHolds(earlier.value, user, f, days[|days| - 1]);
        SeedDay(earlier.value, user, f, days[|days| - 1])
  }

  lemma SeedDayHolds(s: Equipment, user: Actor, f: Fixture, today: Day)
    requires 1 <= s.settings.frequency && 1 <= f.interval
    ensures SeedDay(s, user, f, today).Some? ==> SeedDay(s, user, f, today).value.settings == s.settings
  {
    hide Certified, StatusOn;
    var first := Certified(s, user, f, Named(f.base), today);
    if first.Some? {
      CertifiedHolds(s, user, f, Named(f.base), today);
      if Renew(first.value, user, f, today).Some? && StatusOn(first.value, today) != f.expected {
        CertifiedHolds(first.value, user, f, Renewal(f.base, PeriodStart(f, today)), PeriodStart(f, today));
      }
    }
  }

  // ----- the rolling history -----

  /** An accepted certificate of the fixture dated on a day. */
  function AcceptedCertificate(f: Fixture, code: Code, day: Day): Event
    requires 1 <= f.interval
  {
    Certificate(f, code, day).(state := Accepted)
  }

  predicate FixtureEvent(f: Fixture, e: Event, k: nat, last: Day)
    requires 1 <= f.interval
  {
    && e.calibrated.Some? && e.calibrated.value <= last
    && e == AcceptedCertificate(f, if k == 0 then Named(f.base)
                                   else Renewal(f.base, e.calibrated.value), e.calibrated.value)
  }

  /** In service, with the fixture's own accepted events only, each dated after the one before it. */
  predicate Rolling(s: Equipment, f: Fixture, last: Day)
    requires 1 <= f.interval
  {
    && s.lifecycle.InService? && s.settings.required && 1 <= s.settings.frequency
    && s.events != []
    && (forall k :: 0 <= k < |s.events| ==> FixtureEvent(f, s.events[k], k, last))
    && (forall j, k :: 0 <= j < k < |s.events| ==> SortDay(s.events[j]) < SortDay(s.events[k]))
  }

  lemma RollingLatest(s: Equipment, f: Fixture, last: Day)
    requires 1 <= f.interval && Rolling(s, f, last)
    ensures var e := s.events[|s.events| - 1];
      && Latest(s.events) == Some(|s.events| - 1) && e.calibrated.Some? && SortDay(e) == e.calibrated.value <= last
      && NextDue(s) == Some(e.calibrated.value + f.interval)
      && forall today: Day :: StatusOn(s, today) == ByDue(e.calibrated.value + f.interval, today, s.settings.dueSoon)
  {
    var n := |s.events| - 1;
    assert FixtureEvent(f, s.events[n], n, last);
    LatestIsGreatest(s.events);
    hide Latest, ByDue;
    assert Counts(s.events[n]);
  }

  /** Certifying a code that has no event yet appends its accepted certificate and ends in service. */
  lemma CertifyNew(s: Equipment, user: Actor, f: Fixture, code: Code, day: Day)
    requires 1 <= f.interval && 1 <= s.settings.frequency && user.manager && !s.lifecycle.Retired?
    requires Find(s.events, code).None?
    ensures Certified(s, user, f, code, day)
            == Some(s.(events := s.events + [AcceptedCertificate(f, code, day)], lifecycle := InService))
  {
    var e, n := Certificate(f, code, day), |s.events|;
    var created := s.(events := s.events + [e]);
    CreateDraft(s, user, e);
    FindLast(s.events, e);
    var started := SetEvent(created, n, e.(state := InProgress)).(lifecycle := OutForCalibration);
    StartStep(created, user, n);
    var submitted := SetEvent(started, n, e.(state := AwaitingReview));
    SubmitStep(started, user, n);
    AcceptCertificate(submitted, user, f, code, day, n);
    AcceptStep(submitted, user, n);
    hide Apply, AcceptEvents, Find, AcceptedCertificate, Certificate;
    assert submitted.events[..n] == s.events;
    assert EnsureAccepted(created, user, n)
        == Some(s.(events := s.events + [AcceptedCertificate(f, code, day)], lifecycle := InService));
  }

  lemma StartStep(s: Equipment, user: Actor, k: nat)
    requires 1 <= s.settings.frequency && k < |s.events| && user.manager
    ensures Apply(s, user, Start(k))
            == Some(SetEvent(s, k, s.events[k].(state := InProgress)).(lifecycle := OutForCalibration))
  {
  }

  lemma SubmitStep(s: Equipment, user: Actor, k: nat)
    requires 1 <= s.settings.frequency && k < |s.events|
    ensures Apply(s, user, Submit(k)) == Some(SetEvent(s, k, s.events[k].(state := AwaitingReview)))
  {
  }

  lemma AcceptStep(s: Equipment, user: Actor, k: nat)
    requires 1 <= s.settings.frequency
    ensures Apply(s, user, Accept([k])) == AcceptEvents(s, user, [k])
  {
  }

  lemma CreateDraft(s: Equipment, user: Actor, e: Event)
    requires 1 <= s.settings.frequency && e.state.Draft? && e.impact.None? && DatesOrdered(e)
    ensures Apply(s, user, Create(e)) == Some(s.(events := s.events + [e]))
  {
    hide DatesOrdered;
  }

  lemma FindLast(events: seq<Event>, e: Event)
    requires Find(events, e.code).None?
    ensures Find(events + [e], e.code) == Some(|events|)
  {
    assert (events + [e])[..|events|] == events;
  }

  lemma AcceptCertificate(s: Equipment, user: Actor, f: Fixture, code: Code, day: Day, n: nat)
    requires 1 <= f.interval && 1 <= s.settings.frequency && user.manager && s.lifecycle.OutForCalibration?
    requires n + 1 == |s.events| && s.events[n] == Certificate(f, code, day).(state := AwaitingReview)
    ensures AcceptEvents(s, user, [n])
            == Some(s.(events := s.events[..n] + [AcceptedCertificate(f, code, day)], lifecycle := InService))
  {
    hide AddInterval, EnsureImpact;
    var ks: seq<nat>, e := [n], s.events[n];
    assert ks[1..] == [] && FillAll(s, user, []) == Some(s);
    assert Fill(s, user, n) == Some(s) && FillAll(s, user, ks) == Some(s) by {
      assert s.events[n := e] == s.events;
    }
    var marked := s.(events := MarkAll(s.events, ks));
    assert marked.events == s.events[..n] + [AcceptedCertificate(f, code, day)];
    assert Effects(marked, ks) == marked.(lifecycle := InService);
  }

  // ----- renewals restore the status -----

  /** Cadence, interval and reminder window fit together. */
  predicate Suitable(f: Fixture, window: nat) {
    && 1 <= f.cadence && 1 <= f.interval
    && (f.expected.DueSoon? ==> f.cadence <= f.interval <= window)
    && (f.expected.Current? ==> f.cadence + window <= f.interval)
  }

  /** With a suitable fixture, a status that is off means a period that started after the last certificate. */
  lemma RenewalIsNewer(f: Fixture, window: nat, c: Day, today: Day)
    requires f.expected.DueSoon? || f.expected.Current?
    requires Suitable(f, window) && c <= today && f.cadence <= today
    requires ByDue(c + f.interval, today, window) != f.expected
    ensures c < PeriodStart(f, today) <= today
    ensures ByDue(PeriodStart(f, today) + f.interval, today, window) == f.expected
  {
    var r := today % f.cadence;
    assert 0 <= r < f.cadence;
  }

  lemma RenewKeeps(s: Equipment, user: Actor, f: Fixture, last: Day, today: Day)
    requires f.expected.DueSoon? || f.expected.Current?
    requires Suitable(f, s.settings.dueSoon) && Rolling(s, f, last) && user.manager
    requires last <= today && f.cadence <= today
    ensures var r := Renew(s, user, f, today);
      r.Some? && Rolling(r.value, f, today) && StatusOn(r.value, today) == f.expected
      && r.value.settings == s.settings && s.events <= r.value.events
  {
    RollingLatest(s, f, last);
    assert 1 <= f.cadence;
    hide Suitable, ByDue, StatusOn, Latest, NextDue;
    if StatusOn(s, today) == f.expected {
      RollingOn(s, f, last, today);
    } else {
      var c := s.events[|s.events| - 1].calibrated.value;
      RenewalIsNewer(f, s.settings.dueSoon, c, today);
      var p := PeriodStart(f, today);
      NewCode(s, f, last, p);
      CertifyNew(s, user, f, Renewal(f.base, p), p);
      var t := s.(events := s.events + [AcceptedCertificate(f, Renewal(f.base, p), p)], lifecycle := InService);
      RollingAppend(s, f, last, today, p);
      RollingLatest(t, f, today);
    }
  }

  lemma RollingOn(s: Equipment, f: Fixture, last: Day, today: Day)
    requires 1 <= f.interval && Rolling(s, f, last) && last <= today
    ensures Rolling(s, f, today)
  {
    forall k | 0 <= k < |s.events|
      ensures FixtureEvent(f, s.events[k], k, today)
    {
      assert FixtureEvent(f, s.events[k], k, last);
    }
    hide FixtureEvent, SortDay;
  }

  /** A period later than every certificate has no event yet. */
  lemma NewCode(s: Equipment, f: Fixture, last: Day, p: Day)
    requires 1 <= f.interval && Rolling(s, f, last)
    requires SortDay(s.events[|s.events| - 1]) < p
    ensures Find(s.events, Renewal(f.base, p)).None?
    ensures forall k :: 0 <= k < |s.events| ==> SortDay(s.events[k]) < p
  {
    forall k | 0 <= k < |s.events|
      ensures s.events[k].code != Renewal(f.base, p) && SortDay(s.events[k]) < p
    {
      assert FixtureEvent(f, s.events[k], k, last);
    }
  }

  lemma RollingAppend(s: Equipment, f: Fixture, last: Day, today: Day, p: Day)
    requires 1 <= f.interval && Rolling(s, f, last) && last <= today && p <= today
    requires forall k :: 0 <= k < |s.events| ==> SortDay(s.events[k]) < p
    ensures Rolling(s.(events := s.events + [AcceptedCertificate(f, Renewal(f.base, p), p)], lifecycle := InService),
                    f, today)
  {
    RollingOn(s, f, last, today);
    var e := AcceptedCertificate(f, Renewal(f.base, p), p);
    assert SortDay(e) == p && FixtureEvent(f, e, |s.events|, today);
    hide FixtureEvent, SortDay, AcceptedCertificate;
    var all := s.events + [e];
    assert forall k :: 0 <= k < |s.events| ==> all[k] == s.events[k];
  }

  /** The first event is reused from then on. */
  lemma FirstReused(s: Equipment, user: Actor, f: Fixture, last: Day, today: Day)
    requires 1 <= f.interval && Rolling(s, f, last)
    ensures Certified(s, user, f, Named(f.base), today) == Some(s)
  {
    assert FixtureEvent(f, s.events[0], 0, last);
    FindFirst(s.events, Named(f.base));
    hide Apply;
  }

  lemma {:induction false} FindFirst(events: seq<Event>, code: Code)
    requires events != [] && events[0].code == code
    ensures Find(events, code) == Some(0)
  {
    if |events| > 1 {
      FindFirst(events[..|events| - 1], code);
    }
  }

  lemma FirstSeed(settings: Settings, user: Actor, f: Fixture, today: Day)
    requires 1 <= settings.frequency && 1 <= f.interval && user.manager && settings.required
    ensures var r := Certified(Equipment(settings, InService, [], []), user, f, Named(f.base), today);
      && r == Some(Equipment(settings, InService, [AcceptedCertificate(f, Named(f.base), today)], []))
      && Rolling(r.value, f, today)
  {
    var e := AcceptedCertificate(f, Named(f.base), today);
    FirstRolling(settings, f, today, e);
    assert Find([], Named(f.base)).None? && [] + [e] == [e];
    hide Certified, Rolling, AcceptedCertificate, Find;
    CertifyNew(Equipment(settings, InService, [], []), user, f, Named(f.base), today);
  }

  lemma FirstRolling(settings: Settings, f: Fixture, today: Day, e: Event)
    requires 1 <= settings.frequency && 1 <= f.interval && settings.required
    requires e == AcceptedCertificate(f, Named(f.base), today)
    ensures Rolling(Equipment(settings, InService, [e], []), f, today)
  {
  }

  predicate InDayOrder(days: seq<Day>) {
    forall i, j :: 0 <= i < j < |days| ==> days[i] <= days[j]
  }

  /** On any sequence of seed days a suitable fixture has its status every day and never raises. */
  lemma {:induction false} FixtureHolds(settings: Settings, user: Actor, f: Fixture, days: seq<Day>)
    requires f.expected.DueSoon? || f.expected.Current?
    requires Suitable(f, settings.dueSoon) && 1 <= settings.frequency && settings.required && user.manager
    requires days != [] && InDayOrder(days) && f.cadence <= days[0]
    ensures var r := Seeds(settings, user, f, days); var today := days[|days| - 1];
      r.Some? && Rolling(r.value, f, today) && StatusOn(r.value, today) == f.expected
    decreases |days|
  {
    var n := |days| - 1;
    hide Certified, Renew, Rolling, StatusOn;
    var s: Equipment;
    if n == 0 {
      FirstSeed(settings, user, f, days[0]);
      s := Certified(Equipment(settings, InService, [], []), user, f, Named(f.base), days[0]).value;
      assert Seeds(settings, user, f, days[..0]) == Some(Equipment(settings, InService, [], []));
      RenewKeeps(s, user, f, days[0], days[0]);
    } else {
      FixtureHolds(settings, user, f, days[..n]);
      s := Seeds(settings, user, f, days[..n]).value;
      FirstReused(s, user, f, days[n - 1], days[n]);
      RenewKeeps(s, user, f, days[n - 1], days[n]);
    }
  }

  // ----- and only suitable fixtures do -----

  /** An unsuitable fixture raises when it is seeded on the first day of a period and again on the last. */
  lemma UnsuitableRaises(settings: Settings, user: Actor, f: Fixture) returns (days: seq<Day>)
    requires f.expected.DueSoon? || f.expected.Current?
    requires 1 <= f.cadence && 1 <= f.interval && !Suitable(f, settings.dueSoon)
    requires 1 <= settings.frequency && settings.required && user.manager
    ensures days != [] && InDayOrder(days) && f.cadence <= days[0] && Seeds(settings, user, f, days).None?
  {
    var first, last := f.cadence, 2 * f.cadence - 1;
    var s := Equipment(settings, InService, [AcceptedCertificate(f, Named(f.base), first)], []);
    SameStart(f);
    OffAtAnEnd(f, settings.dueSoon);
    FirstSeed(settings, user, f, first);
    StillOff(settings, user, f, s, first);
    SeedsOnce(settings, user, f, s, first);
    hide *;
    days := [first];
    if Seeds(settings, user, f, [first]).Some? {
      StillOff(settings, user, f, s, last);
      SeedsTwice(settings, user, f, s, first, last);
      days := [first, last];
    }
    assert InDayOrder(days) by {
      InOrder(first, last);
    }
  }

  lemma InOrder(first: Day, last: Day)
    requires first <= last
    ensures InDayOrder([first]) && InDayOrder([first, last])
  {
  }

  lemma OffAtAnEnd(f: Fixture, window: nat)
    requires f.expected.DueSoon? || f.expected.Current?
    requires 1 <= f.cadence && 1 <= f.interval && !Suitable(f, window)
    ensures ByDue(f.cadence + f.interval, f.cadence, window) != f.expected
            || ByDue(f.cadence + f.interval, 2 * f.cadence - 1, window) != f.expected
  {
  }

  lemma SeedsOnce(settings: Settings, user: Actor, f: Fixture, s: Equipment, day: Day)
    requires 1 <= settings.frequency && 1 <= f.interval && s.settings == settings
    requires Certified(Equipment(settings, InService, [], []), user, f, Named(f.base), day) == Some(s)
    ensures Seeds(settings, user, f, [day]) == Renew(s, user, f, day)
  {
    hide Certified, Renew;
    assert [day][..0] == [];
  }

  lemma SeedsTwice(settings: Settings, user: Actor, f: Fixture, s: Equipment, first: Day, last: Day)
    requires 1 <= settings.frequency && 1 <= f.interval && Rolling(s, f, first) && s.settings == settings
    requires Seeds(settings, user, f, [first]) == Some(s)
    ensures Seeds(settings, user, f, [first, last]) == Renew(s, user, f, last)
  {
    hide Certified, Renew, Rolling;
    assert [first, last][..1] == [first];
    FirstReused(s, user, f, first, last);
  }

  lemma SameStart(f: Fixture)
    requires 1 <= f.cadence
    ensures PeriodStart(f, f.cadence) == f.cadence && PeriodStart(f, 2 * f.cadence - 1) == f.cadence
  {
  }

  /** A renewal dated like the first event changes no due date: the status stays off. */
  lemma StillOff(settings: Settings, user: Actor, f: Fixture, s: Equipment, today: Day)
    requires 1 <= f.cadence && 1 <= f.interval && 1 <= settings.frequency && user.manager
    requires s == Equipment(settings, InService, [AcceptedCertificate(f, Named(f.base), f.cadence)], [])
    requires Rolling(s, f, f.cadence) && f.cadence <= today && PeriodStart(f, today) == f.cadence
    ensures Renew(s, user, f, today)
            == if ByDue(f.cadence + f.interval, today, settings.dueSoon) == f.expected then Some(s) else None
  {
    RollingLatest(s, f, f.cadence);
    hide ByDue;
    if StatusOn(s, today) != f.expected {
      var code := Renewal(f.base, f.cadence);
      CertifyNew(s, user, f, code, f.cadence);
      var t := s.(events := s.events + [AcceptedCertificate(f, code, f.cadence)]);
      LatestIsGreatest(t.events);
      assert Counts(t.events[1]);
      hide Certified;
    }
  }

  // ----- the two fixtures of the demonstration -----

  ghost predicate NeverRaises(settings: Settings, user: Actor, f: Fixture)
    requires 1 <= settings.frequency && 1 <= f.interval
  {
    forall days: seq<Day> :: days != [] && InDayOrder(days) && f.cadence <= days[0] ==>
      Seeds(settings, user, f, days).Some?
  }

  /** A fixture never raises, whatever the seed days, exactly when its numbers are suitable. */
  lemma NeverRaisesExactlyWhenSuitable(settings: Settings, user: Actor, f: Fixture)
    requires f.expected.DueSoon? || f.expected.Current?
    requires 1 <= f.cadence && 1 <= f.interval
    requires 1 <= settings.frequency && settings.required && user.manager
    ensures NeverRaises(settings, user, f) <==> Suitable(f, settings.dueSoon)
  {
    hide Seeds, Suitable, InDayOrder;
    if Suitable(f, settings.dueSoon) {
      forall days: seq<Day> | days != [] && InDayOrder(days) && f.cadence <= days[0]
        ensures Seeds(settings, user, f, days).Some?
      {
        FixtureHolds(settings, user, f, days);
      }
    } else {
      var days := UnsuitableRaises(settings, user, f);
    }
  }

  /**
   * The fixtures of the demonstration data: the due-soon one of fourteen and eighteen days needs a reminder window of
   * at least its eighteen; the current one, renewed a day before its 180 days come within the window, a shorter one.
   */
  lemma DemonstrationFixtures(settings: Settings, user: Actor, cadence: nat)
    requires 1 <= settings.frequency && settings.required && user.manager && 1 <= cadence
    ensures NeverRaises(settings, user, Fixture("APEX-CAL-EVT-002", DueSoon, 14, 18)) <==> 18 <= settings.dueSoon
    ensures (cadence == 180 - settings.dueSoon - 1 && 1 <= cadence) || (settings.dueSoon >= 179 && cadence == 1) ==>
      (NeverRaises(settings, user, Fixture("APEX-CAL-EVT-005", Current, cadence, 180)) <==> settings.dueSoon < 180)
  {
    hide NeverRaises;
    NeverRaisesExactlyWhenSuitable(settings, user, Fixture("APEX-CAL-EVT-002", DueSoon, 14, 18));
    NeverRaisesExactlyWhenSuitable(settings, user, Fixture("APEX-CAL-EVT-005", Current, cadence, 180));
  }

  // ----- the seed script on the record -----

  method Restore(i: Instrument, s: Equipment)
    requires s.settings == i.settings
    modifies i
    ensures i.Contents() == s
  {
    i.lifecycle, i.events, i.impacts := s.lifecycle, s.events, s.impacts;
  }

  /** upsert_calibration_event and ensure_calibration_event_state on the stored record. */
  method Certify(i: Instrument, user: Actor, f: Fixture, code: Code, day: Day) returns (ok: bool)
    requires i.Valid() && 1 <= i.settings.frequency && 1 <= f.interval
    modifies i
    ensures ok == old(Certified(i.Contents(), user, f, code, day).Some?)
    ensures ok ==> i.Valid() && i.Contents() == old(Certified(i.Contents(), user, f, code, day).value)
  {
    hide Sound, Apply, Find, Certificate;
    ghost var s := i.Contents();
    var e, found := Certificate(f, code, day), Find(i.events, code);
    ok := true;
    if found.None? {
      ok := i.Create(user, e);
    } else if !i.events[found.value].state.Accepted? {
      ok := i.Edit(user, found.value, e.outcome, i.events[found.value].sent, e.calibrated, e.due);
    }
    if !ok {
      return;
    }
    assert Upsert(s, user, f, code, day) == Some(i.Contents());
    UpsertHolds(s, user, f, code, day);
    var at := Find(i.events, code);
    if at.None? {
      return false;
    }
    ok := Settle(i, user, at.value);
  }

  method Settle(i: Instrument, user: Actor, k: nat) returns (ok: bool)
    requires i.Valid() && k < |i.events| && 1 <= i.settings.frequency
    modifies i
    ensures ok == old(EnsureAccepted(i.Contents(), user, k).Some?)
    ensures ok ==> i.Valid() && i.Contents() == old(EnsureAccepted(i.Contents(), user, k).value)
  {
    hide Sound, Apply;
    ghost var s := i.Contents();
    if i.events[k].state.Draft? {
      ok := i.Start(user, k);
      if !ok {
        return;
      }
    }
    Unchanged(StateOf(s, k).Draft?, s, user, Start(k));
    ghost var a := i.Contents();
    if i.events[k].state.InProgress? {
      ok := i.Submit(user, k);
      if !ok {
        return;
      }
    }
    Unchanged(StateOf(a, k).InProgress?, a, user, Submit(k));
    ghost var b := i.Contents();
    if i.events[k].state.AwaitingReview? {
      ok := i.Accept(user, [k]);
      if !ok {
        return;
      }
    }
    Unchanged(StateOf(b, k).AwaitingReview?, b, user, Accept([k]));
    ok := i.events[k].state.Accepted?;
  }

  /** What a seed run leaves, and whether it succeeded. */
  function SeedOutcome(s: Equipment, user: Actor, f: Fixture, today: Day): (Equipment, bool)
    requires 1 <= s.settings.frequency && 1 <= f.interval
  {
    hide SeedDay;
    var r := SeedDay(s, user, f, today);
    if r.Some? then (r.value, true) else (s, false)
  }

  /** One fixture's part of a seed run; an error leaves the record as it was. */
  method SeedFixture(i: Instrument, user: Actor, f: Fixture, today: Day) returns (ok: bool)
    requires i.Valid() && 1 <= i.settings.frequency && 1 <= f.interval
    modifies i
    ensures (i.Contents(), ok) == old(SeedOutcome(i.Contents(), user, f, today))
  {
    hide Certified, Sound, StatusOn;
    var before := i.Contents();
    ok := Certify(i, user, f, Named(f.base), today);
    if !ok {
      Restore(i, before);
      return;
    }
    if StatusOn(i.Contents(), today) == f.expected {
      return;
    }
    if f.cadence < 1 || PeriodStart(f, today) < 1 {
      ok := false;
    } else {
      ok := Certify(i, user, f, Renewal(f.base, PeriodStart(f, today)), PeriodStart(f, today));
    }
    if !ok || StatusOn(i.Contents(), today) != f.expected {
      ok := false;
      Restore(i, before);
    }
  }
}
