/** Equipment and calibration events in the words of their users: status, actions, and what acceptance writes. */
module CalibrationRules {
  import opened Common
  import opened Calibration
  import opened CalibrationAcceptance
  import Calendar

  predicate Good(e: Event) { e.outcome == Pass || e.outcome == Conditional }

  /** A calibration ends no earlier than it began, and is due again on a later day. */
  predicate InOrder(sent: Option<Day>, calibrated: Option<Day>, due: Option<Day>) {
    && (sent != None && calibrated != None ==> sent.value <= calibrated.value)
    && (calibrated != None && due != None ==> calibrated.value < due.value)
  }

  // ----- the event shown, and the status -----

  /** An event without a date counts as of 1 January 1900. */
  function DayOf(e: Event): int {
    if e.calibrated != None then e.calibrated.value else Calendar.Ordinal(Calendar.Date(1900, 1, 1))
  }

  predicate Valued(e: Event) { e.state == Accepted && Good(e) }

  /** The accepted good event of the latest day, of the last number on that day. */
  predicate Shown(events: seq<Event>, k: nat) {
    && k < |events| && Valued(events[k])
    && forall i :: 0 <= i < |events| && Valued(events[i]) ==>
         DayOf(events[i]) < DayOf(events[k]) || (DayOf(events[i]) == DayOf(events[k]) && i <= k)
  }

  lemma SortDayIs(e: Event)
    ensures DayOf(e) == SortDay(e)
  {
    assert Calendar.Ordinal(Calendar.Date(1900, 1, 1)) == 693596;
  }

  lemma ShownExactly(events: seq<Event>, k: nat)
    ensures Shown(events, k) <==> Latest(events) == Some(k)
  {
    LatestIsGreatest(events);
    forall i | 0 <= i < |events|
      ensures DayOf(events[i]) == SortDay(events[i])
    {
      SortDayIs(events[i]);
    }
    hide Latest, DayOf, SortDay;
    if Latest(events).Some? {
      assert Valued(events[Latest(events).value]);
    }
  }

  /** Each status exactly as the equipment card explains it. */
  lemma StatusExactly(s: Equipment, today: Day)
    ensures s.lifecycle in {Quarantined, OutForCalibration, Retired} ==> StatusOn(s, today) == Held(s.lifecycle)
    ensures s.lifecycle in {InService, OutOfService} ==>
      && (!s.settings.required ==> StatusOn(s, today) == NotRequired)
      && (s.settings.required && (forall k: nat :: Shown(s.events, k) ==> s.events[k].due == None) ==>
            StatusOn(s, today) == NoHistory)
      && forall k: nat :: s.settings.required && Shown(s.events, k) && s.events[k].due != None ==>
           var due, status := s.events[k].due.value, StatusOn(s, today);
           && (due < today ==> status == Overdue) && (due == today ==> status == Due)
           && (today < due <= today + s.settings.dueSoon ==> status == DueSoon)
           && (today + s.settings.dueSoon < due ==> status == Current)
  {
    forall k: nat
      ensures Shown(s.events, k) <==> Latest(s.events) == Some(k)
    {
      ShownExactly(s.events, k);
    }
    hide Latest, Shown;
  }

  // ----- single steps -----

  /** A new event is a draft with its dates in order. */
  lemma CreateWritten(s: Equipment, user: Actor, e: Event)
    requires 1 <= s.settings.frequency
    ensures Apply(s, user, Create(e)).Some? <==> InOrder(e.sent, e.calibrated, e.due)
    ensures Apply(s, user, Create(e)).Some? ==>
      Apply(s, user, Create(e)).value
      == s.(events := s.events + [Event(e.code, Draft, e.outcome, e.sent, e.calibrated, e.due, None)])
  {
  }

  /** One event changes, and nothing else does. */
  predicate Only(s: Equipment, t: Equipment, k: nat) {
    && t == s.(events := t.events) && |t.events| == |s.events|
    && forall i :: 0 <= i < |s.events| && i != k ==> t.events[i] == s.events[i]
  }

  /** An event that is not accepted may be edited as long as its dates stay in order. */
  lemma EditWritten(s: Equipment, user: Actor, k: nat, outcome: Outcome, sent: Option<Day>, calibrated: Option<Day>,
                    due: Option<Day>)
    requires 1 <= s.settings.frequency
    ensures var x := Edit(k, outcome, sent, calibrated, due);
      && (Apply(s, user, x).Some?
          <==> k < |s.events| && s.events[k].state != Accepted && InOrder(sent, calibrated, due))
      && (Apply(s, user, x).Some? ==> var t := Apply(s, user, x).value;
            && Only(s, t, k)
            && t.events[k] == Event(s.events[k].code, s.events[k].state, outcome, sent, calibrated, due,
                                    s.events[k].impact))
  {
  }

  /** Starting an event sends the equipment out; submitting asks for no permission; cancelling needs a manager. */
  lemma StepsWritten(s: Equipment, user: Actor, k: nat)
    requires 1 <= s.settings.frequency
    ensures Apply(s, user, Start(k)).Some? <==> k < |s.events| && user.manager
    ensures Apply(s, user, Submit(k)).Some? <==> k < |s.events|
    ensures Apply(s, user, Cancel(k)).Some? <==> k < |s.events| && user.manager
    ensures Apply(s, user, Start(k)).Some? ==> var t := Apply(s, user, Start(k)).value;
      && t.lifecycle == OutForCalibration && Only(s, t.(lifecycle := s.lifecycle), k)
      && t.events[k] == s.events[k].(state := InProgress)
    ensures Apply(s, user, Submit(k)).Some? ==> var t := Apply(s, user, Submit(k)).value;
      Only(s, t, k) && t.events[k] == s.events[k].(state := AwaitingReview)
    ensures Apply(s, user, Cancel(k)).Some? ==> var t := Apply(s, user, Cancel(k)).value;
      Only(s, t, k) && t.events[k] == s.events[k].(state := Cancelled)
  {
  }

  /** A manager moves equipment at will, but back to service only when no assessment is open. */
  lemma LifecycleWritten(s: Equipment, user: Actor, a: nat)
    requires 1 <= s.settings.frequency
    ensures Apply(s, user, MarkOut) == if user.manager then Some(s.(lifecycle := OutForCalibration)) else None
    ensures Apply(s, user, Quarantine) == if user.manager then Some(s.(lifecycle := Quarantined)) else None
    ensures Apply(s, user, ReturnToService)
            == if user.manager && forall i :: 0 <= i < |s.impacts| ==> !s.impacts[i].isOpen
               then Some(s.(lifecycle := InService))
               else None
    ensures Apply(s, user, CloseImpact(a)).Some? <==> a < |s.impacts|
    ensures Apply(s, user, CloseImpact(a)).Some? ==>
      Apply(s, user, CloseImpact(a)).value == s.(impacts := s.impacts[a := s.impacts[a].(isOpen := false)])
  {
    ReturnRefusedExactly(s, user);
    hide LatestEvent;
  }

  // ----- acceptance -----

  /** A due date is filled in for a good event that has none, of equipment that needs calibration. */
  predicate FillsDue(s: Equipment, e: Event) { Good(e) && e.due == None && s.settings.required }

  /**
   * Accepting asks for a manager and a calibration date on every event; filling in a due date of an event
   * accepted before takes an administrator.
   */
  lemma AcceptSucceeds(s: Equipment, user: Actor, ks: seq<nat>)
    requires Sound(s)
    ensures Apply(s, user, Accept(ks)).Some?
            <==> user.manager && forall k :: k in ks ==>
                   && k < |s.events| && s.events[k].calibrated != None
                   && (s.events[k].state == Accepted && FillsDue(s, s.events[k]) ==> user.administrator)
  {
    SoundFrequency(s);
    hide Sound;
    if forall k :: k in ks ==> k < |s.events| {
      AcceptFailsExactly(s, user, ks);
      hide AcceptEvents;
      assert forall k :: k in ks ==>
        (RefusesAcceptance(s.settings, user, s.events[k])
         <==> !(s.events[k].calibrated != None
                && (s.events[k].state == Accepted && FillsDue(s, s.events[k]) ==> user.administrator)));
    }
    assert Apply(s, user, Accept(ks)).Some? ==> Dated(s.events, ks);
  }

  /** An event of the list: accepted, and due an interval after its date where that was missing. */
  predicate AcceptedAs(s: Equipment, before: Event, after: Event) {
    && after == before.(state := Accepted, due := after.due, impact := after.impact)
    && (if FillsDue(s, before)
        then before.calibrated != None && after.due != None
             && IntervalAfter(s.settings, before.calibrated.value, after.due.value)
        else after.due == before.due)
    && (Good(before) || before.impact != None ==> after.impact == before.impact)
  }

  lemma ImpactAside(before: Event, due: Option<Day>, after: Event)
    requires SameButImpact(after, before.(due := due, state := Accepted))
    ensures after == before.(state := Accepted, due := after.due, impact := after.impact)
  {
  }

  /** The events of the list are accepted as they should be, and no other event changes. */
  lemma EventsAccepted(s: Equipment, user: Actor, ks: seq<nat>, i: nat)
    requires Sound(s) && Apply(s, user, Accept(ks)).Some? && i < |s.events|
    ensures var t := Apply(s, user, Accept(ks)).value;
      && |t.events| == |s.events|
      && if i in ks then AcceptedAs(s, s.events[i], t.events[i]) else t.events[i] == s.events[i]
  {
    AcceptedEvents(s, user, ks);
    DueDatesFilled(s, user, ks, i);
    hide AcceptEvents, FilledDue, IntervalAfter, Sound, SameButImpact;
    if i in ks {
      var t := AcceptEvents(s, user, ks).value;
      ImpactAside(s.events[i], FilledDue(s.settings, s.events[i]), t.events[i]);
      if s.events[i].impact != None {
        LinksStay(s, user, ks, i);
      }
    }
  }

  /** Events that have an assessment keep it. */
  lemma LinksStay(s: Equipment, user: Actor, ks: seq<nat>, i: nat)
    requires Sound(s) && AcceptEvents(s, user, ks).Some? && i < |s.events| && s.events[i].impact.Some?
    ensures |AcceptEvents(s, user, ks).value.events| == |s.events|
    ensures AcceptEvents(s, user, ks).value.events[i].impact == s.events[i].impact
  {
    MarkedEvents(s, user, ks);
    EffectsKeepLinks(Marked(s, user, ks), ks, i);
    hide Marked, FilledDue, AcceptEvents, Effects, FillAll, Sound;
  }

  lemma {:induction false} EffectsKeepLinks(s: Equipment, ks: seq<nat>, i: nat)
    requires Dated(s.events, ks) && i < |s.events| && s.events[i].impact.Some?
    ensures Effects(s, ks).events[i].impact == s.events[i].impact
    decreases |ks|
  {
    hide Exposure, FindImpact;
    if ks != [] {
      EffectsStep(s, ks);
      EffectsKeepLinks(Effect(s, ks[0]), ks[1..], i);
    }
  }

  /** The last event of the list decides: quarantine if it failed, else service, or retirement if no event failed. */
  lemma LifecycleAfter(s: Equipment, user: Actor, ks: seq<nat>)
    requires Sound(s) && Apply(s, user, Accept(ks)).Some?
    ensures var t := Apply(s, user, Accept(ks)).value;
      && (ks == [] ==> t == s)
      && (ks != [] ==> ks[|ks| - 1] < |s.events| && var last := s.events[ks[|ks| - 1]];
            && (!Good(last) ==> t.lifecycle == Quarantined)
            && (Good(last) && s.lifecycle != Retired ==> t.lifecycle == InService)
            && (s.lifecycle == Retired && (forall k :: k in ks ==> k < |s.events| && Good(s.events[k])) ==>
                  t.lifecycle == Retired)
            && (s.lifecycle == Retired && Good(last)
                && (exists k :: k in ks && k < |s.events| && !Good(s.events[k])) ==>
                  t.lifecycle == InService))
  {
    SoundFrequency(s);
    if ks == [] {
      EmptyAcceptance(s, user);
    } else {
      LastDecides(s, user, ks);
      assert ks[|ks| - 1] in ks;
    }
    hide AcceptEvents, Sound;
  }

  // ----- the assessments an acceptance opens -----

  /** A good accepted event, not of number k, dated no later than a day. */
  predicate Precedent(e: Event, i: nat, k: nat, until: Day) {
    i != k && Valued(e) && e.calibrated != None && e.calibrated.value <= until
  }

  /** The exposure of a failed event starts at the last good event accepted up to its date, if there is one. */
  predicate ExposedFrom(events: seq<Event>, k: nat, until: Day, start: Option<Day>) {
    && (start == None ==> forall i :: 0 <= i < |events| ==> !Precedent(events[i], i, k, until))
    && (start != None ==>
          && (exists i :: 0 <= i < |events| && Precedent(events[i], i, k, until) && events[i].calibrated == start)
          && forall i :: 0 <= i < |events| && Precedent(events[i], i, k, until) ==>
               events[i].calibrated.value <= start.value)
  }

  predicate AnyOf(impacts: seq<Impact>, k: nat) { exists a :: 0 <= a < |impacts| && impacts[a].event == k }

  /** A new assessment is of a failed event of the list that had none, from its exposure to its date, and open. */
  predicate NewFor(before: Equipment, events: seq<Event>, ks: seq<nat>, i: Impact) {
    && i.event in ks && i.event < |before.events| && i.event < |events| && i.isOpen
    && !Good(before.events[i.event]) && before.events[i.event].impact == None && !AnyOf(before.impacts, i.event)
    && events[i.event].calibrated == Some(i.exposureEnd)
    && ExposedFrom(events, i.event, i.exposureEnd, i.exposureStart)
  }

  lemma ExposureExactly(events: seq<Event>, k: nat, until: Day)
    ensures var last := Exposure(events, k, until, |events|);
      ExposedFrom(events, k, until, if last.None? then None else events[last.value].calibrated)
  {
    ExposureIsLatest(events, k, until, |events|);
    var last := Exposure(events, k, until, |events|);
    hide Exposure;
    if last.Some? {
      assert Precedent(events[last.value], last.value, k, until);
    }
  }

  lemma {:induction false} FoundIsFirst(impacts: seq<Impact>, k: nat)
    ensures FindImpact(impacts, k).None? <==> !AnyOf(impacts, k)
    ensures FindImpact(impacts, k).Some? ==> forall b :: 0 <= b < FindImpact(impacts, k).value ==> impacts[b].event != k
  {
    if impacts != [] {
      var n := |impacts| - 1;
      FoundIsFirst(impacts[..n], k);
      assert forall a :: 0 <= a < n ==> impacts[..n][a] == impacts[a];
      assert AnyOf(impacts, k) <==> AnyOf(impacts[..n], k) || impacts[n].event == k;
    }
  }

  /** The same events but for their assessments. */
  predicate Alike(a: seq<Event>, b: seq<Event>) {
    |a| == |b| && forall i :: 0 <= i < |a| ==> SameButImpact(a[i], b[i])
  }

  lemma ExposedAlike(a: seq<Event>, b: seq<Event>, k: nat, until: Day, start: Option<Day>)
    requires Alike(a, b)
    ensures ExposedFrom(a, k, until, start) <==> ExposedFrom(b, k, until, start)
  {
    forall i | 0 <= i < |a|
      ensures Precedent(a[i], i, k, until) <==> Precedent(b[i], i, k, until)
      ensures a[i].calibrated == b[i].calibrated
    {
      assert SameButImpact(a[i], b[i]);
    }
    hide Precedent;
  }

  /** What one turn of the last loop opens. */
  lemma EffectOpensFor(s: Equipment, k: nat)
    requires k < |s.events| && s.events[k].calibrated.Some?
    ensures var t := Effect(s, k);
      && Alike(t.events, s.events) && s.impacts <= t.impacts
      && forall a :: |s.impacts| <= a < |t.impacts| ==>
           t.impacts[a].event == k && NewFor(s, s.events, [k], t.impacts[a])
  {
    EffectEvents(s, k);
    FoundIsFirst(s.impacts, k);
    ExposureExactly(s.events, k, s.events[k].calibrated.value);
    hide Exposure, FindImpact, ExposedFrom, AnyOf;
  }

  lemma NewForMore(s: Equipment, k: nat, rest: seq<nat>, i: Impact)
    requires NewFor(s, s.events, [k], i)
    ensures NewFor(s, s.events, [k] + rest, i)
  {
    assert k in [k] + rest;
  }

  lemma AnyOfMore(a: seq<Impact>, b: seq<Impact>, k: nat)
    requires a <= b && AnyOf(a, k)
    ensures AnyOf(b, k)
  {
    var i :| 0 <= i < |a| && a[i].event == k;
    assert b[i].event == k;
  }

  /** A later turn opens an assessment only for an event that needed one from the start. */
  lemma NewForEarlier(s: Equipment, k: nat, rest: seq<nat>, i: Impact)
    requires k < |s.events| && s.events[k].calibrated.Some?
    requires var u := Effect(s, k); NewFor(u, u.events, rest, i)
    ensures NewFor(s, s.events, [k] + rest, i)
  {
    var u := Effect(s, k);
    EffectEvents(s, k);
    hide Effect;
    assert Alike(u.events, s.events);
    ExposedAlike(u.events, s.events, i.event, i.exposureEnd, i.exposureStart);
    assert SameButImpact(u.events[i.event], s.events[i.event]);
    if AnyOf(s.impacts, i.event) {
      AnyOfMore(s.impacts, u.impacts, i.event);
    }
    hide ExposedFrom, AnyOf;
  }

  /** No two assessments are of one event from some number on, counted with all the earlier ones. */
  predicate DistinctFrom(impacts: seq<Impact>, n: nat) {
    forall a, b :: 0 <= a < b < |impacts| && n <= b ==> impacts[a].event != impacts[b].event
  }

  lemma NotAmong(impacts: seq<Impact>, k: nat)
    requires !AnyOf(impacts, k)
    ensures forall a :: 0 <= a < |impacts| ==> impacts[a].event != k
  {
  }

  /** What the last loop opens. */
  lemma {:induction false} EffectsOpenFor(s: Equipment, ks: seq<nat>)
    requires Dated(s.events, ks)
    ensures var t := Effects(s, ks);
      && Alike(t.events, s.events) && s.impacts <= t.impacts && DistinctFrom(t.impacts, |s.impacts|)
      && forall a :: |s.impacts| <= a < |t.impacts| ==> NewFor(s, s.events, ks, t.impacts[a])
    decreases |ks|
  {
    hide Effect, NewFor;
    if ks != [] {
      var k, rest := ks[0], ks[1..];
      assert ks == [k] + rest;
      EffectsStep(s, ks);
      var u, t := Effect(s, k), Effects(s, ks);
      EffectOpensFor(s, k);
      EffectEvents(s, k);
      EffectsOpenFor(u, rest);
      forall a | |s.impacts| <= a < |t.impacts|
        ensures NewFor(s, s.events, ks, t.impacts[a])
        ensures forall b :: 0 <= b < a ==> t.impacts[b].event != t.impacts[a].event
      {
        if a < |u.impacts| {
          assert NewFor(s, s.events, [k], u.impacts[a]);
          NewForMore(s, k, rest, t.impacts[a]);
          NewForNone(s, s.events, [k], u.impacts[a]);
        } else {
          NewForEarlier(s, k, rest, t.impacts[a]);
          NewForNone(u, u.events, rest, t.impacts[a]);
        }
      }
      AlikeTwice(t.events, u.events, s.events);
    }
  }

  lemma NewForNone(s: Equipment, events: seq<Event>, ks: seq<nat>, i: Impact)
    requires NewFor(s, events, ks, i)
    ensures forall a :: 0 <= a < |s.impacts| ==> s.impacts[a].event != i.event
  {
    NotAmong(s.impacts, i.event);
  }

  lemma AlikeTwice(a: seq<Event>, b: seq<Event>, c: seq<Event>)
    requires Alike(a, b) && Alike(b, c)
    ensures Alike(a, c)
  {
    forall i | 0 <= i < |a|
      ensures SameButImpact(a[i], c[i])
    {
      assert SameButImpact(a[i], b[i]) && SameButImpact(b[i], c[i]);
    }
  }

  /** The first assessment of an event. */
  predicate FirstOf(impacts: seq<Impact>, v: nat, k: nat) {
    v < |impacts| && impacts[v].event == k && forall b :: 0 <= b < v ==> impacts[b].event != k
  }

  lemma EffectLinks(s: Equipment, k: nat)
    requires k < |s.events| && s.events[k].calibrated.Some? && !Good(s.events[k]) && s.events[k].impact == None
    ensures var t := Effect(s, k); t.events[k].impact.Some? && FirstOf(t.impacts, t.events[k].impact.value, k)
  {
    FoundIsFirst(s.impacts, k);
    hide Exposure, FindImpact;
    if FindImpact(s.impacts, k).None? {
      NotAmong(s.impacts, k);
    }
    hide AnyOf;
  }

  /** Each failed event that had no assessment ends linked to its first one. */
  lemma {:induction false} EffectsLink(s: Equipment, ks: seq<nat>, k: nat)
    requires Dated(s.events, ks) && k in ks && k < |s.events| && !Good(s.events[k]) && s.events[k].impact == None
    ensures var t := Effects(s, ks); t.events[k].impact.Some? && FirstOf(t.impacts, t.events[k].impact.value, k)
    decreases |ks|
  {
    hide Effect;
    var first, rest := ks[0], ks[1..];
    assert ks == [first] + rest;
    EffectsStep(s, ks);
    EffectEvents(s, first);
    var u := Effect(s, first);
    if k == first {
      EffectLinks(s, k);
      EffectsKeepLinks(u, rest, k);
      EffectsEvents(u, rest);
    } else {
      EffectsLink(u, rest, k);
    }
  }

  /**
   * An acceptance opens one assessment for each failed event of the list that has none, of its exposure, and
   * no others; the earlier ones stay. A failed event that was linked to none is then linked to its first.
   */
  lemma AssessmentsOpened(s: Equipment, user: Actor, ks: seq<nat>)
    requires Sound(s) && Apply(s, user, Accept(ks)).Some?
    ensures var t := Apply(s, user, Accept(ks)).value;
      && |t.events| == |s.events| && s.impacts <= t.impacts && DistinctFrom(t.impacts, |s.impacts|)
      && (forall a :: |s.impacts| <= a < |t.impacts| ==> NewFor(s, t.events, ks, t.impacts[a]))
      && forall k :: k in ks && k < |s.events| && !Good(s.events[k]) && s.events[k].impact == None ==>
           t.events[k].impact.Some? && FirstOf(t.impacts, t.events[k].impact.value, k)
  {
    SoundFrequency(s);
    MarkedEvents(s, user, ks);
    var m := Marked(s, user, ks);
    EffectsOpenFor(m, ks);
    var t := Effects(m, ks);
    hide AcceptEvents, FillAll, Effects, Marked, FilledDue, Sound, DistinctFrom, Alike, NewFor;
    forall a | |s.impacts| <= a < |t.impacts|
      ensures NewFor(s, t.events, ks, t.impacts[a])
    {
      NewForMarked(s, m, t.events, ks, t.impacts[a]);
    }
    forall k | k in ks && k < |s.events| && !Good(s.events[k]) && s.events[k].impact == None
      ensures t.events[k].impact.Some? && FirstOf(t.impacts, t.events[k].impact.value, k)
    {
      EffectsLink(m, ks, k);
    }
  }

  lemma NewForMarked(s: Equipment, m: Equipment, events: seq<Event>, ks: seq<nat>, i: Impact)
    requires m == s.(events := m.events) && |m.events| == |s.events| && Alike(events, m.events)
    requires forall k :: 0 <= k < |s.events| ==>
      m.events[k].outcome == s.events[k].outcome && m.events[k].impact == s.events[k].impact
    requires NewFor(m, m.events, ks, i)
    ensures NewFor(s, events, ks, i)
  {
    ExposedAlike(events, m.events, i.event, i.exposureEnd, i.exposureStart);
    assert SameButImpact(events[i.event], m.events[i.event]);
    hide ExposedFrom, AnyOf;
  }
}
