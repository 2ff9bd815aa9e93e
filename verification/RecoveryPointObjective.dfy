/** The six-hour recovery-point objective over whole schedules. */
module RecoveryPointObjective {
  import opened Common
  import opened Instants
  import opened Schedule
  import opened RunStatus

  /** What a run on schedule is allowed: how late it may start and how long it may take. */
  datatype Limits = Limits(jitter: nat, duration: nat)

  /** The run of one slot: starts in the jitter window, succeeds in time, and its point lies inside the run. */
  ghost predicate OnTime(c: Clock, slot: nat, limits: Limits, a: Attempt) {
    && slot <= a.started <= slot + limits.jitter
    && a.started <= a.ended <= a.started + limits.duration
    && Succeeded(c, a)
    && c.read(a.backup.consistency).Some?
    && a.started <= c.read(a.backup.consistency).value <= a.ended
  }

  /** An endless schedule from a first slot, one run a slot. */
  ghost predicate OnSchedule(c: Clock, first: nat, limits: Limits, runs: nat -> Attempt) {
    IsSlot(first) && forall k: nat :: OnTime(c, SlotAt(first, k), limits, runs(k))
  }

  function Prefix(runs: nat -> Attempt, n: nat): (history: seq<Attempt>)
    ensures |history| == n && forall i :: 0 <= i < n ==> history[i] == runs(i)
  {
    seq(n, i requires 0 <= i < n => runs(i))
  }

  /** The k-th run is the last one finished at a moment. */
  predicate LastFinished(runs: nat -> Attempt, k: nat, now: nat) {
    runs(k).ended <= now < runs(k + 1).ended
  }

  /** No invocation turns a readable file unreadable, and none repairs an unreadable one. */
  lemma {:induction false} UnreadableStays(c: Clock, file: StatusFile, history: seq<Attempt>)
    ensures Fold(c, file, history).Unreadable? <==> file.Unreadable?
    ensures file.Unreadable? ==> Fold(c, file, history) == file
    decreases |history|
  {
    if history != [] {
      UnreadableStays(c, file, history[..|history| - 1]);
      hide WellFormed, Base, FailedStatus, SuccessStatus;
    }
  }

  /** A run that succeeded leaves its own point and no failure, whatever readable file it started from. */
  lemma StepOfSuccess(c: Clock, file: StatusFile, a: Attempt)
    requires !file.Unreadable? && Succeeded(c, a)
    ensures var after := Step(c, file, a).0;
      && after.Present? && after.status.lastResult.Success? && after.status.failureCode.None?
      && a.backup.Returned? && after.status.consistency == Some(a.backup.consistency)
      && after.status.nextRun == c.print_(NextSlot(a.started)) && after.status.failures == 0
  {
  }

  /** After a run that succeeded the file holds that run's point and no failure, whatever happened before. */
  lemma FileAfterSuccess(c: Clock, earlier: StatusFile, runs: nat -> Attempt, k: nat)
    requires !earlier.Unreadable? && Succeeded(c, runs(k))
    ensures var file := Fold(c, earlier, Prefix(runs, k + 1));
      && file.Present? && file.status.lastResult.Success? && file.status.failureCode.None?
      && runs(k).backup.Returned? && file.status.consistency == Some(runs(k).backup.consistency)
      && file.status.nextRun == c.print_(NextSlot(runs(k).started)) && file.status.failures == 0
  {
    var history := Prefix(runs, k + 1);
    assert history[|history| - 1] == runs(k);
    UnreadableStays(c, earlier, history[..|history| - 1]);
    StepOfSuccess(c, Fold(c, earlier, history[..|history| - 1]), runs(k));
    hide Succeeded, Step;
  }

  lemma HealthOfSuccess(c: Clock, file: StatusFile, now: nat)
    requires file.Present? && file.status.lastResult.Success? && file.status.failureCode.None?
    requires file.status.consistency.Some? && c.read(file.status.consistency.value).Some?
    requires c.read(file.status.consistency.value).value <= now
    ensures HealthOf(c, file, now)
            == if now < c.read(file.status.consistency.value).value + RPO + SECOND then Healthy else Stale
  {
    var point := c.read(file.status.consistency.value).value;
    assert AgeSeconds(now, point) <= RPO / SECOND <==> now < point + RPO + SECOND;
  }

  /** How old the newest point can be: the gap to the end of the next run. */
  lemma PointAge(c: Clock, first: nat, limits: Limits, runs: nat -> Attempt, k: nat)
    requires OnSchedule(c, first, limits, runs)
    ensures Succeeded(c, runs(k)) && c.read(runs(k).backup.consistency).Some?
    ensures var point := c.read(runs(k).backup.consistency).value;
      point <= runs(k).ended && runs(k + 1).ended <= point + SLOT + limits.jitter + limits.duration
  {
    hide Succeeded, SlotAt;
    assert OnTime(c, SlotAt(first, k), limits, runs(k));
    assert OnTime(c, SlotAt(first, k + 1), limits, runs(k + 1));
    SlotsAreFourHoursApart(first, k);
    SlotsAreFourHoursApart(first, k + 1);
    assert (k + 1) * SLOT == k * SLOT + SLOT;
  }

  /** Between the end of one run and the end of the next, health is HEALTHY, whatever file the schedule found. */
  lemma HealthyBetweenRuns(
      c: Clock, earlier: StatusFile, first: nat, limits: Limits, runs: nat -> Attempt, k: nat, now: nat)
    requires OnSchedule(c, first, limits, runs) && LastFinished(runs, k, now)
    requires SLOT + limits.jitter + limits.duration <= RPO + SECOND
    ensures HealthOf(c, Fold(c, earlier, Prefix(runs, k + 1)), now)
            == if earlier.Unreadable? then Raises else Healthy
  {
    hide OnSchedule, Fold, Succeeded, HealthOf, Prefix;
    PointAge(c, first, limits, runs, k);
    if earlier.Unreadable? {
      UnreadableStays(c, earlier, Prefix(runs, k + 1));
      assert HealthOf(c, earlier, now) == Raises by {
        UnreadableRaises(c, now);
      }
    } else {
      FileAfterSuccess(c, earlier, runs, k);
      HealthOfSuccess(c, Fold(c, earlier, Prefix(runs, k + 1)), now);
    }
  }

  lemma UnreadableRaises(c: Clock, now: nat)
    ensures HealthOf(c, Unreadable, now) == Raises
  {
  }

  lemma {:induction false} SomeLastFinished(c: Clock, first: nat, limits: Limits, runs: nat -> Attempt, now: nat,
                                            n: nat)
    returns (k: nat)
    requires OnSchedule(c, first, limits, runs)
    requires runs(0).ended <= now < runs(n).ended
    ensures LastFinished(runs, k, now)
    decreases n
  {
    hide OnTime;
    if n == 0 {
      assert false;
    } else if runs(n - 1).ended <= now {
      k := n - 1;
    } else {
      k := SomeLastFinished(c, first, limits, runs, now, n - 1);
    }
  }

  lemma SlotBeyond(first: nat, n: nat)
    requires IsSlot(first)
    ensures n <= SlotAt(first, n)
  {
    SlotsAreFourHoursApart(first, n);
    hide IsSlot, SlotAt;
    assert n * SLOT >= n;
  }

  lemma EndsLater(c: Clock, first: nat, limits: Limits, runs: nat -> Attempt, now: nat)
    requires OnSchedule(c, first, limits, runs)
    ensures now < runs(now + 1).ended
  {
    SlotBeyond(first, now + 1);
    hide IsSlot, SlotAt, Succeeded;
    assert OnTime(c, SlotAt(first, now + 1), limits, runs(now + 1));
  }

  /**
   * The objective holds over whole schedules: at every moment after the first run ended, some run
   * is the last finished one and the health check on the file it left says HEALTHY. The schedule
   * may start from any earlier file but one that cannot be read, which every run and every check refuses.
   */
  lemma AlwaysHealthy(c: Clock, earlier: StatusFile, first: nat, limits: Limits, runs: nat -> Attempt, now: nat)
    returns (k: nat)
    requires OnSchedule(c, first, limits, runs) && runs(0).ended <= now
    requires SLOT + limits.jitter + limits.duration <= RPO + SECOND
    ensures LastFinished(runs, k, now)
    ensures HealthOf(c, Fold(c, earlier, Prefix(runs, k + 1)), now)
            == if earlier.Unreadable? then Raises else Healthy
  {
    hide *;
    var n := now + 1;
    EndsLater(c, first, limits, runs, now);
    k := SomeLastFinished(c, first, limits, runs, now, n);
    HealthyBetweenRuns(c, earlier, first, limits, runs, k, now);
  }

  /** Runs never overlap, and each file names the slot of the run that follows it. */
  lemma RunsNeverOverlap(c: Clock, first: nat, limits: Limits, runs: nat -> Attempt, k: nat)
    requires OnSchedule(c, first, limits, runs) && limits.jitter + limits.duration <= SLOT && limits.jitter < SLOT
    ensures runs(k).ended <= runs(k + 1).started
    ensures NextSlot(runs(k).started) == SlotAt(first, k + 1)
  {
    hide Succeeded;
    assert OnTime(c, SlotAt(first, k), limits, runs(k)) && OnTime(c, SlotAt(first, k + 1), limits, runs(k + 1));
    SlotsAreFourHoursApart(first, k);
    SlotsAreFourHoursApart(first, k + 1);
    NextOfLateStart(first, k, runs(k).started);
  }

  /** The largest jitter the timer may add, and the working time the objective then leaves. */
  function DesignLimits(): Limits { Limits(MAX_JITTER, RPO - SLOT - MAX_JITTER) }

  /** A schedule within the design limits always meets the objective, and no run meets the next one. */
  lemma DesignedLimits(c: Clock, earlier: StatusFile, first: nat, runs: nat -> Attempt, now: nat) returns (k: nat)
    requires OnSchedule(c, first, DesignLimits(), runs) && runs(0).ended <= now
    ensures DesignLimits() == Limits(1_800_000_000, 5_400_000_000)
    ensures LastFinished(runs, k, now) && runs(k).ended <= runs(k + 1).started
    ensures NextSlot(runs(k).started) == SlotAt(first, k + 1)
    ensures HealthOf(c, Fold(c, earlier, Prefix(runs, k + 1)), now)
            == if earlier.Unreadable? then Raises else Healthy
  {
    hide OnSchedule, LastFinished, Fold, HealthOf, Prefix, NextSlot, SlotAt;
    k := AlwaysHealthy(c, earlier, first, DesignLimits(), runs, now);
    RunsNeverOverlap(c, first, DesignLimits(), runs, k);
  }

  // ----- the bound is exact -----

  /** A successful run with given times, its point taken at its start. */
  function Sample(c: Clock, started: nat, ended: nat): Attempt {
    Attempt("daily", true, started, ended, Returned("a", SampleDigest(), c.print_(started), "PASS"), RetentionPassed)
  }

  function SampleDigest(): string { seq(64, _ => '0') }

  /** A schedule whose second run is as late and as long as the limits allow, all others immediate. */
  function LateSecondRun(c: Clock, first: nat, limits: Limits, k: nat): Attempt {
    SampleAt(c, SlotAt(first, k), limits, k == 1)
  }

  function SampleAt(c: Clock, slot: nat, limits: Limits, late: bool): Attempt {
    if late then Sample(c, slot + limits.jitter, slot + limits.jitter + limits.duration) else Sample(c, slot, slot)
  }

  function LateSecond(c: Clock, first: nat, limits: Limits): nat -> Attempt {
    (k: nat) => LateSecondRun(c, first, limits, k)
  }

  lemma SampleSucceeds(c: Clock, started: nat, ended: nat)
    requires LawfulClock(c) && started % SECOND == 0
    ensures Succeeded(c, Sample(c, started, ended))
    ensures c.read(Sample(c, started, ended).backup.consistency) == Some(started)
  {
    var a := Sample(c, started, ended);
    assert |"daily"| == 5 && a.backup.archive == "a" && ArchiveChar('a');
    assert c.read(c.print_(started)) == Some(started);
  }

  lemma SampleOnTime(c: Clock, slot: nat, limits: Limits, started: nat, ended: nat)
    requires LawfulClock(c) && started % SECOND == 0
    requires slot <= started <= slot + limits.jitter && started <= ended <= started + limits.duration
    ensures OnTime(c, slot, limits, Sample(c, started, ended))
  {
    SampleSucceeds(c, started, ended);
    hide Succeeded, LawfulClock;
  }

  lemma SampleAtOnTime(c: Clock, slot: nat, limits: Limits, late: bool)
    requires LawfulClock(c) && slot % SECOND == 0 && (slot + limits.jitter) % SECOND == 0
    ensures OnTime(c, slot, limits, SampleAt(c, slot, limits, late))
  {
    hide Sample, LawfulClock, OnTime;
    var start := slot + limits.jitter;
    if late {
      SampleOnTime(c, slot, limits, start, start + limits.duration);
    } else {
      SampleOnTime(c, slot, limits, slot, slot);
    }
  }

  lemma LateSecondOnTime(c: Clock, first: nat, limits: Limits)
    requires LawfulClock(c) && IsSlot(first) && limits.jitter % SECOND == 0
    ensures OnSchedule(c, first, limits, LateSecond(c, first, limits))
  {
    forall k: nat
      ensures OnTime(c, SlotAt(first, k), limits, LateSecond(c, first, limits)(k))
    {
      SlotsAreFourHoursApart(first, k);
      SlotIsMultiple(SlotAt(first, k));
      FullSeconds(SlotAt(first, k), limits.jitter);
      hide IsSlot, SlotAt, SampleAt, LawfulClock, OnTime, OnSchedule;
      SampleAtOnTime(c, SlotAt(first, k), limits, k == 1);
    }
    hide IsSlot, SlotAt, LateSecond, LawfulClock, OnTime;
  }

  /** Its first point is its first slot, and its second run ends a full gap later. */
  lemma LateSecondTimes(c: Clock, first: nat, limits: Limits)
    requires LawfulClock(c) && IsSlot(first)
    ensures var runs := LateSecond(c, first, limits);
      && Succeeded(c, runs(0)) && c.read(runs(0).backup.consistency) == Some(first)
      && runs(0).ended == first && runs(1).ended == first + SLOT + limits.jitter + limits.duration
  {
    SlotsAreFourHoursApart(first, 1);
    SlotIsMultiple(first);
    FullSeconds(first, 0);
    hide IsSlot;
    SampleSucceeds(c, first, first);
    assert SlotAt(first, 0) == first;
    hide Succeeded, LawfulClock, SlotAt;
  }

  lemma FullSeconds(slot: nat, jitter: nat)
    requires slot % SLOT == 0 && jitter % SECOND == 0
    ensures slot % SECOND == 0 && (slot + jitter) % SECOND == 0
  {
    var k, j := slot / SLOT, jitter / SECOND;
    assert slot == k * SLOT && jitter == j * SECOND;
    assert slot + jitter == (k * 14400 + j) * SECOND;
    assert slot == (k * 14400) * SECOND;
  }

  /**
   * Beyond the bound the objective fails: whenever the limits leave room for more than six hours
   * and a second, some schedule within them is STALE just before its second run ends, whatever
   * readable file it started from.
   */
  lemma BoundIsExact(c: Clock, earlier: StatusFile, first: nat, limits: Limits)
    returns (runs: nat -> Attempt, now: nat)
    requires LawfulClock(c) && IsSlot(first) && limits.jitter % SECOND == 0 && !earlier.Unreadable?
    requires SLOT + limits.jitter + limits.duration > RPO + SECOND
    ensures OnSchedule(c, first, limits, runs) && LastFinished(runs, 0, now)
    ensures HealthOf(c, Fold(c, earlier, Prefix(runs, 1)), now) == Stale
  {
    runs := LateSecond(c, first, limits);
    LateSecondOnTime(c, first, limits);
    LateSecondTimes(c, first, limits);
    hide IsSlot, OnSchedule, OnTime, LateSecond, Fold, Succeeded, HealthOf, LawfulClock, Prefix;
    now := runs(1).ended - 1;
    FileAfterSuccess(c, earlier, runs, 0);
    HealthOfSuccess(c, Fold(c, earlier, Prefix(runs, 1)), now);
  }
}
