/** What accepting several calibration events of one equipment at once leaves behind. */
module CalibrationAcceptance {
  import opened Common
  import opened Calibration

  // ----- events and assessments -----

  predicate SameButImpact(a: Event, b: Event) { a.(impact := None) == b.(impact := None) }

  lemma EffectEvents(s: Equipment, k: nat)
    requires k < |s.events| && s.events[k].calibrated.Some?
    ensures var t := Effect(s, k);
      && |t.events| == |s.events| && SameButImpact(t.events[k], s.events[k])
      && (forall i :: 0 <= i < |s.events| && i != k ==> t.events[i] == s.events[i])
      && (if Passing(s.events[k]) then t.events[k] == s.events[k] && t.impacts == s.impacts
          else t.events[k].impact.Some?)
      && s.impacts <= t.impacts && |t.impacts| <= |s.impacts| + 1
      && t.lifecycle == (if !Passing(s.events[k]) then Quarantined
                         else if s.lifecycle.Retired? then Retired else InService)
  {
    hide Exposure, FindImpact;
  }

  /** The last loop links failed events to assessments and touches nothing else in the events. */
  lemma {:induction false} EffectsEvents(s: Equipment, ks: seq<nat>)
    requires Dated(s.events, ks)
    ensures var t := Effects(s, ks);
      && |t.events| == |s.events|
      && (forall i :: 0 <= i < |s.events| ==> SameButImpact(t.events[i], s.events[i]))
      && (forall i :: 0 <= i < |s.events| && (i !in ks || Passing(s.events[i])) ==> t.events[i] == s.events[i])
      && (forall i :: 0 <= i < |s.events| && (s.events[i].impact.Some? || (i in ks && !Passing(s.events[i]))) ==>
            t.events[i].impact.Some?)
      && s.impacts <= t.impacts && |t.impacts| <= |s.impacts| + |ks|
    decreases |ks|
  {
    hide Effect;
    if ks != [] {
      var k := ks[0];
      assert k in ks && ks == [k] + ks[1..];
      assert forall j :: j in ks[1..] ==> j in ks;
      EffectEvents(s, k);
      EffectsEvents(Effect(s, k), ks[1..]);
    }
  }

  /** The records before the last loop. */
  function Marked(s: Equipment, user: Actor, ks: seq<nat>): Equipment
    requires 1 <= s.settings.frequency && FillAll(s, user, ks).Some?
  {
    var t := FillAll(s, user, ks).value;
    t.(events := MarkAll(t.events, ks))
  }

  lemma MarkedEvents(s: Equipment, user: Actor, ks: seq<nat>)
    requires Sound(s) && AcceptEvents(s, user, ks).Some?
    ensures FillAll(s, user, ks).Some? && Dated(s.events, ks)
    ensures var t := Marked(s, user, ks);
      && t == s.(events := t.events) && |t.events| == |s.events| && Dated(t.events, ks)
      && AcceptEvents(s, user, ks) == Some(Effects(t, ks))
      && forall i :: 0 <= i < |s.events| ==>
           t.events[i] == if i in ks then s.events[i].(due := FilledDue(s.settings, s.events[i]), state := Accepted)
                          else s.events[i]
  {
    SoundDates(s);
    FillAllExactly(s, user, ks);
    hide FillAll, Effects, FilledDue, RefusesAcceptance, DatesOrdered, Sound;
  }

  lemma SoundFrequency(s: Equipment)
    requires Sound(s)
    ensures 1 <= s.settings.frequency
  {
  }

  /**
   * Every event of the list is accepted with its due date filled in; failed ones have an assessment of
   * their own; other events and the earlier assessments are as they were.
   */
  lemma AcceptedEvents(s: Equipment, user: Actor, ks: seq<nat>)
    requires Sound(s) && AcceptEvents(s, user, ks).Some?
    ensures var t := AcceptEvents(s, user, ks).value;
      && |t.events| == |s.events| && s.impacts <= t.impacts && |t.impacts| <= |s.impacts| + |ks|
      && (forall i :: 0 <= i < |s.events| && i !in ks ==> t.events[i] == s.events[i])
      && forall k :: k in ks ==>
           && k < |s.events| && s.events[k].calibrated.Some?
           && SameButImpact(t.events[k], s.events[k].(due := FilledDue(s.settings, s.events[k]), state := Accepted))
           && (Passing(s.events[k]) ==> t.events[k].impact == s.events[k].impact)
           && (!Passing(s.events[k]) ==>
                 && t.events[k].impact.Some? && t.events[k].impact.value < |t.impacts|
                 && t.impacts[t.events[k].impact.value].event == k)
  {
    MarkedEvents(s, user, ks);
    EffectsEvents(Marked(s, user, ks), ks);
    AcceptSound(s, user, ks);
    var t := AcceptEvents(s, user, ks).value;
    hide Marked, FilledDue, AcceptEvents, DatesOrdered, ImpactSound, FillAll, Effects;
    forall k | k in ks && !Passing(s.events[k])
      ensures t.events[k].impact.Some? && t.events[k].impact.value < |t.impacts|
      ensures t.impacts[t.events[k].impact.value].event == k
    {
      assert EventSound(t.events[k], k, t.impacts);
    }
  }

  /**
   * The due dates an acceptance leaves: a passing event of required equipment that had none is due a whole
   * interval after its date; every other event is due when it was.
   */
  lemma DueDatesFilled(s: Equipment, user: Actor, ks: seq<nat>, i: nat)
    requires Sound(s) && AcceptEvents(s, user, ks).Some? && i < |s.events|
    ensures var t := AcceptEvents(s, user, ks).value;
      && |t.events| == |s.events|
      && var e := s.events[i];
         if i in ks && (e.outcome == Pass || e.outcome == Conditional) && e.due == None && s.settings.required
         then e.calibrated.Some? && t.events[i].due.Some?
              && IntervalAfter(s.settings, e.calibrated.value, t.events[i].due.value)
         else t.events[i].due == e.due
  {
    AcceptedEvents(s, user, ks);
    SoundFrequency(s);
    var e, t := s.events[i], AcceptEvents(s, user, ks).value;
    hide AcceptEvents, Sound;
    if i in ks {
      assert SameButImpact(t.events[i], e.(due := FilledDue(s.settings, e), state := Accepted));
      AddIntervalExactly(s.settings, e.calibrated.value);
    }
    hide IntervalAfter, AddInterval;
  }

  // ----- the lifecycle -----

  predicate AllPassing(events: seq<Event>, ks: seq<nat>)
    requires Dated(events, ks)
  {
    forall k :: k in ks ==> Passing(events[k])
  }

  /** Where the equipment ends: the last event of the list decides, and retirement survives passing events only. */
  function FinalLifecycle(s: Equipment, ks: seq<nat>): Lifecycle
    requires ks != [] && Dated(s.events, ks)
  {
    assert ks[|ks| - 1] in ks;
    if !Passing(s.events[ks[|ks| - 1]]) then Quarantined
    else if s.lifecycle.Retired? && AllPassing(s.events, ks) then Retired
    else InService
  }

  lemma {:induction false} EffectsLifecycle(s: Equipment, ks: seq<nat>)
    requires ks != [] && Dated(s.events, ks)
    ensures Effects(s, ks).lifecycle == FinalLifecycle(s, ks)
    decreases |ks|
  {
    hide Effect;
    var k, rest := ks[0], ks[1..];
    assert k in ks && ks == [k] + rest;
    assert forall j :: j in rest ==> j in ks;
    EffectEvents(s, k);
    var t := Effect(s, k);
    if rest != [] {
      assert rest[|rest| - 1] == ks[|ks| - 1];
      EffectsLifecycle(t, rest);
      assert AllPassing(t.events, rest) <==> AllPassing(s.events, rest);
      assert AllPassing(s.events, ks) <==> Passing(s.events[k]) && AllPassing(s.events, rest);
    } else {
      assert Effects(t, rest) == t;
      assert AllPassing(s.events, ks) <==> Passing(s.events[k]);
    }
  }

  /** The last event of an acceptance decides whether the equipment is back in service or quarantined. */
  lemma LastDecides(s: Equipment, user: Actor, ks: seq<nat>)
    requires Sound(s) && ks != [] && AcceptEvents(s, user, ks).Some?
    ensures AcceptEvents(s, user, ks).value.lifecycle == FinalLifecycle(s, ks)
  {
    MarkedEvents(s, user, ks);
    var t := Marked(s, user, ks);
    EffectsLifecycle(t, ks);
    hide Marked, FilledDue, AcceptEvents, Effects, FillAll, Sound;
    assert ks[|ks| - 1] in ks;
    assert AllPassing(t.events, ks) <==> AllPassing(s.events, ks);
  }

  // ----- open assessments -----

  /** A failed event that no assessment is linked to or found for. */
  predicate NeedsImpact(s: Equipment, k: nat)
    requires k < |s.events|
  {
    !Passing(s.events[k]) && s.events[k].impact.None? && FindImpact(s.impacts, k).None?
  }

  lemma FindAppended(impacts: seq<Impact>, i: Impact, k: nat)
    ensures FindImpact(impacts + [i], k)
            == if FindImpact(impacts, k).None? && i.event == k then Some(|impacts|) else FindImpact(impacts, k)
  {
    assert (impacts + [i])[..|impacts|] == impacts;
  }

  lemma EffectOpens(s: Equipment, k: nat, j: nat)
    requires k < |s.events| && j < |s.events| && s.events[k].calibrated.Some?
    ensures HasOpenImpact(Effect(s, k)) <==> HasOpenImpact(s) || NeedsImpact(s, k)
    ensures NeedsImpact(Effect(s, k), j) <==> NeedsImpact(s, j) && j != k
  {
    hide Exposure, FindImpact;
    var t := Effect(s, k);
    if NeedsImpact(s, k) {
      assert t.impacts[|s.impacts|].isOpen;
      FindAppended(s.impacts, t.impacts[|s.impacts|], j);
      assert t.impacts == s.impacts + [t.impacts[|s.impacts|]];
    } else {
      assert t.impacts == s.impacts;
    }
  }

  lemma {:induction false} EffectsOpen(s: Equipment, ks: seq<nat>)
    requires Dated(s.events, ks)
    ensures HasOpenImpact(Effects(s, ks)) <==> HasOpenImpact(s) || exists k :: k in ks && NeedsImpact(s, k)
    decreases |ks|
  {
    hide Effect, HasOpenImpact, NeedsImpact;
    if ks != [] {
      var k, rest := ks[0], ks[1..];
      assert k in ks && ks == [k] + rest;
      assert forall j :: j in rest ==> j in ks;
      forall j | 0 <= j < |s.events|
        ensures HasOpenImpact(Effect(s, k)) <==> HasOpenImpact(s) || NeedsImpact(s, k)
        ensures NeedsImpact(Effect(s, k), j) <==> NeedsImpact(s, j) && j != k
      {
        EffectOpens(s, k, j);
      }
      EffectsOpen(Effect(s, k), rest);
      var t := Effect(s, k);
      assert (exists j :: j in ks && NeedsImpact(s, j)) <==>
        NeedsImpact(s, k) || exists j :: j in rest && NeedsImpact(t, j);
    }
  }

  /** An acceptance leaves an open assessment exactly when there was one or a failed event still needed one. */
  lemma OpenAfter(s: Equipment, user: Actor, ks: seq<nat>)
    requires Sound(s) && AcceptEvents(s, user, ks).Some?
    ensures Dated(s.events, ks)
    ensures HasOpenImpact(AcceptEvents(s, user, ks).value)
            <==> HasOpenImpact(s) || exists k :: k in ks && NeedsImpact(s, k)
  {
    MarkedEvents(s, user, ks);
    var t := Marked(s, user, ks);
    EffectsOpen(t, ks);
    hide Marked, FilledDue, AcceptEvents, Effects, FillAll, Sound, FindImpact;
    assert forall k :: k in ks ==> (NeedsImpact(t, k) <==> NeedsImpact(s, k));
  }

  /** The rule that return to service enforces: nothing is in service with an assessment open. */
  predicate Guarded(s: Equipment) { s.lifecycle.InService? ==> !HasOpenImpact(s) }

  /**
   * Acceptance goes round that rule. Of all actions only an acceptance puts equipment in service with an
   * open assessment, and it does so exactly when its last event passes, unless the equipment stays retired,
   * and an assessment was open or a failed event earlier in the list needs one.
   */
  lemma GuardBrokenExactly(s: Equipment, user: Actor, x: Action)
    requires Sound(s) && Guarded(s) && Apply(s, user, x).Some?
    ensures x.Accept? ==> Dated(s.events, x.ks)
    ensures !Guarded(Apply(s, user, x).value)
            <==> && x.Accept? && x.ks != [] && FinalLifecycle(s, x.ks).InService?
                 && (HasOpenImpact(s) || exists k :: k in x.ks && NeedsImpact(s, k))
  {
    if x.Accept? {
      OpenAfter(s, user, x.ks);
      if x.ks == [] {
        EmptyAcceptance(s, user);
      } else {
        LastDecides(s, user, x.ks);
      }
      hide AcceptEvents, HasOpenImpact, FinalLifecycle, NeedsImpact, Sound;
    } else {
      OthersGuarded(s, user, x);
    }
  }

  lemma EmptyAcceptance(s: Equipment, user: Actor)
    requires 1 <= s.settings.frequency && AcceptEvents(s, user, []).Some?
    ensures AcceptEvents(s, user, []).value == s
  {
    assert MarkAll(s.events, []) == s.events;
    assert FillAll(s, user, []) == Some(s) && Effects(s, []) == s;
  }

  lemma OthersGuarded(s: Equipment, user: Actor, x: Action)
    requires 1 <= s.settings.frequency && Guarded(s) && Apply(s, user, x).Some? && !x.Accept?
    ensures Guarded(Apply(s, user, x).value)
  {
    hide DatesOrdered, LatestEvent, AcceptEvents;
    var t := Apply(s, user, x).value;
    if x.CloseImpact? && HasOpenImpact(t) {
      var a :| 0 <= a < |t.impacts| && t.impacts[a].isOpen;
      assert s.impacts[a].isOpen;
    }
  }

  // ----- the roll-up -----

  /** Passing events that an acceptance of the list counts. */
  predicate WillCount(s: Equipment, ks: seq<nat>, i: nat)
    requires i < |s.events|
  {
    Passing(s.events[i]) && (s.events[i].state.Accepted? || i in ks)
  }

  /** The latest of the passing events, accepted before or now, is what the roll-up then shows. */
  lemma NewestAcceptedIsShown(s: Equipment, user: Actor, ks: seq<nat>, k: nat)
    requires Sound(s) && AcceptEvents(s, user, ks).Some? && k in ks && k < |s.events| && Passing(s.events[k])
    requires forall i: nat :: i < |s.events| && i != k && WillCount(s, ks, i) ==>
      SortDay(s.events[i]) < SortDay(s.events[k]) || (SortDay(s.events[i]) == SortDay(s.events[k]) && i < k)
    ensures var t := AcceptEvents(s, user, ks).value;
      Latest(t.events) == Some(k) && s.events[k].calibrated.Some? && NextDue(t) == FilledDue(s.settings, s.events[k])
  {
    AcceptedEvents(s, user, ks);
    SoundFrequency(s);
    var t := AcceptEvents(s, user, ks).value;
    LatestIsGreatest(t.events);
    hide AcceptEvents, FilledDue, Sound, Latest;
    forall i: nat | i < |s.events|
      ensures (Counts(t.events[i]) <==> WillCount(s, ks, i)) && SortDay(t.events[i]) == SortDay(s.events[i])
    {
      if i in ks {
        assert SameButImpact(t.events[i], s.events[i].(due := FilledDue(s.settings, s.events[i]), state := Accepted));
      }
    }
    assert WillCount(s, ks, k) && Counts(t.events[k]);
  }

  // ----- the order of a list matters -----

  /** Required equipment out for calibration, with a failed and a passing event of one day awaiting review. */
  function TwoResults(): Equipment {
    Equipment(Settings(true, Days, 30, 7), OutForCalibration,
              [Event(Named("a"), AwaitingReview, Fail, None, Some(1), None, None),
               Event(Named("b"), AwaitingReview, Pass, None, Some(1), Some(31), None)], [])
  }

  lemma TwoResultsSound()
    ensures Sound(TwoResults()) && Guarded(TwoResults())
    ensures !Passing(TwoResults().events[0]) && Passing(TwoResults().events[1])
    ensures NeedsImpact(TwoResults(), 0) && !HasOpenImpact(TwoResults())
  {
  }

  lemma TwoAccepted(ks: seq<nat>)
    requires forall k :: k in ks ==> k < 2
    ensures AcceptEvents(TwoResults(), Actor(true, false), ks).Some?
    ensures !TwoResults().lifecycle.Retired?
  {
    var s, manager := TwoResults(), Actor(true, false);
    TwoResultsSound();
    assert !RefusesAcceptance(s.settings, manager, s.events[0]) && !RefusesAcceptance(s.settings, manager, s.events[1]);
    AcceptFailsExactly(s, manager, ks);
    hide AcceptEvents, Sound, RefusesAcceptance, NeedsImpact, HasOpenImpact;
  }

  /**
   * Failed first and passed last, the equipment is in service with its assessment open; the other way round
   * it is quarantined.
   */
  lemma OrderDecides()
    ensures var s, manager := TwoResults(), Actor(true, false);
      && Sound(s) && Guarded(s)
      && AcceptEvents(s, manager, [0, 1]).Some? && AcceptEvents(s, manager, [1, 0]).Some?
      && AcceptEvents(s, manager, [0, 1]).value.lifecycle.InService?
      && HasOpenImpact(AcceptEvents(s, manager, [0, 1]).value)
      && AcceptEvents(s, manager, [1, 0]).value.lifecycle.Quarantined?
  {
    var s, manager := TwoResults(), Actor(true, false);
    TwoResultsSound();
    TwoAccepted([0, 1]);
    TwoAccepted([1, 0]);
    hide TwoResults, AcceptEvents, Sound, NeedsImpact, HasOpenImpact, Passing, AllPassing;
    assert 0 in [0, 1];
    OpenAfter(s, manager, [0, 1]);
    LastDecides(s, manager, [0, 1]);
    LastDecides(s, manager, [1, 0]);
  }
}
