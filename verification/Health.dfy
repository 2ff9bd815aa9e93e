/** What a run reports and what the health check says, over arbitrary histories (tools/backup/m29_scheduler.py). */
module Health {
  import opened Common
  import opened RunStatus
  import VerifiedPoints

  // ----- a single run -----

  /** A name of ASCII letters, digits, dots, underscores and hyphens. */
  predicate PlainArchive(s: string) {
    s != "" && forall i :: 0 <= i < |s| ==>
      var n := s[i] as int;
      48 <= n <= 57 || 65 <= n <= 90 || 97 <= n <= 122 || n == 45 || n == 46 || n == 95
  }

  /** A backup result that is well formed: a plain name, a digest, a time that reads. */
  predicate SoundResult(c: Clock, b: BackupOutcome) {
    && b.Returned? && PlainArchive(b.archive) && VerifiedPoints.Hex(b.digest, 64)
    && c.read(b.consistency).Some?
  }

  /** A run that gets to the runners: a known tier, a free lock, a file that reads. */
  predicate Begins(file: StatusFile, a: Attempt) {
    (a.tier == "intraday" || a.tier == "daily" || a.tier == "monthly") && a.lockFree && !file.Unreadable?
  }

  lemma SoundExactly(c: Clock, b: BackupOutcome)
    ensures WellFormed(c, b) <==> SoundResult(c, b)
  {
    if b.Returned? {
      VerifiedPoints.HexExactly(b.digest, 64);
    }
    hide VerifiedPoints.Hex;
  }

  /**
   * The exit code tells what happened: an error before anything is recorded; 1 for an error of the scheduler,
   * a malformed result among them; 2 for any other error; 0 when backup and retention both succeeded.
   */
  lemma ExitExactly(c: Clock, file: StatusFile, a: Attempt)
    ensures var exit := Step(c, file, a).1;
      if !Begins(file, a) then exit == Raised
      else if a.backup == BackupRaised(InfrastructureError) then exit == Code(2)
      else if !SoundResult(c, a.backup) then exit == Code(1)
      else match a.retention
        case RetentionPassed => exit == Code(0)
        case RetentionRaised(SchedulerFailure) => exit == Code(1)
        case RetentionRaised(InfrastructureError) => exit == Code(2)
  {
    SoundExactly(c, a.backup);
    hide WellFormed, PlainArchive, VerifiedPoints.Hex, Base, FailedStatus, SuccessStatus;
  }

  /** An invocation that does not begin leaves the file alone; one that does records its error, or none. */
  lemma RecordsExactly(c: Clock, file: StatusFile, a: Attempt)
    ensures !Begins(file, a) ==> Step(c, file, a).0 == file
    ensures Begins(file, a) ==>
      && Step(c, file, a).0.Present?
      && var s := Step(c, file, a).0.status;
         && (s.lastResult == if s.failureCode.None? then Success else Failed)
         && s.failureCode == (if a.backup.BackupRaised? then Some(a.backup.error)
                              else if !SoundResult(c, a.backup) then Some(SchedulerFailure)
                              else if a.retention.RetentionRaised? then Some(a.retention.error)
                              else None)
         && (s.retention == if !SoundResult(c, a.backup) then NotRun
                            else if a.retention.RetentionRaised? then RunStatus.Failure else Pass)
         && (a.started <= a.ended ==> s.duration * 1_000_000 <= a.ended - a.started < (s.duration + 1) * 1_000_000)
         && (a.ended < a.started ==> s.duration == 0)
  {
    SoundExactly(c, a.backup);
    hide WellFormed, PlainArchive, VerifiedPoints.Hex;
  }

  // ----- the health check on a file -----

  const SIX_HOURS := 21_600_000_000
  const ONE_SECOND := 1_000_000

  /** The consistency time a file holds, if it holds one that reads. */
  predicate HoldsPoint(c: Clock, file: StatusFile, point: nat) {
    file.Present? && file.status.consistency.Some? && c.read(file.status.consistency.value) == Some(point)
  }

  /**
   * The verdict on any file: a file that does not read raises; no time, or one that does not read, or one a
   * second or more ahead is an error; a failed last run is reported as such whatever the age; otherwise the
   * age decides, in whole seconds.
   */
  lemma HealthOfFile(c: Clock, file: StatusFile, now: nat)
    ensures HealthOf(c, file, now).Raises? <==> file.Unreadable?
    ensures HealthOf(c, file, now).MissingStatus? <==> file.Missing? || (file.Present? && file.status.consistency.None?)
    ensures HealthOf(c, file, now).InvalidStatus?
            <==> file.Present? && file.status.consistency.Some? && c.read(file.status.consistency.value).None?
    ensures forall point: nat :: HoldsPoint(c, file, point) ==>
      HealthOf(c, file, now)
      == if now + ONE_SECOND <= point then FutureStatus
         else if file.status.lastResult.Failed? || file.status.failureCode.Some? then FailedRun
         else if now < point + SIX_HOURS + ONE_SECOND then Healthy
         else Stale
  {
    forall point: nat
      ensures AgeSeconds(now, point) < 0 <==> now + ONE_SECOND <= point
      ensures point < now + ONE_SECOND ==> (AgeSeconds(now, point) <= 21_600 <==> now < point + SIX_HOURS + ONE_SECOND)
    {
      AgeExactly(now, point);
    }
    hide AgeSeconds;
  }

  lemma AgeExactly(now: nat, point: nat)
    ensures AgeSeconds(now, point) < 0 <==> now + ONE_SECOND <= point
    ensures point < now + ONE_SECOND ==> (AgeSeconds(now, point) <= 21_600 <==> now < point + SIX_HOURS + ONE_SECOND)
  {
    if point <= now {
      var d := now - point;
      assert d / 1_000_000 <= 21_600 <==> d < 21_601 * 1_000_000;
    } else {
      var d := point - now;
      assert d / 1_000_000 >= 1 <==> d >= 1_000_000;
    }
  }

  // ----- the health check after a history -----

  /** The recorded run of that number succeeded, and none after it did. */
  ghost predicate LastGood(c: Clock, runs: seq<Attempt>, k: nat) {
    k < |runs| && Succeeded(c, runs[k]) && forall i :: k < i < |runs| ==> !Succeeded(c, runs[i])
  }

  lemma GoodRunReads(c: Clock, a: Attempt)
    requires Succeeded(c, a)
    ensures a.backup.Returned? && c.read(a.backup.consistency).Some?
  {
  }

  lemma GoodExactly(c: Clock, a: Attempt)
    ensures Succeeded(c, a)
            <==> (a.tier == "intraday" || a.tier == "daily" || a.tier == "monthly") && a.lockFree
                 && SoundResult(c, a.backup) && a.retention == RetentionPassed
  {
    SoundExactly(c, a.backup);
    hide WellFormed, SoundResult;
  }

  /** What the file says about the last good run and the last run. */
  lemma FileOfHistory(c: Clock, history: seq<Attempt>, k: nat)
    requires LastGood(c, Recordings(history), k)
    ensures var runs, file := Recordings(history), Fold(c, Missing, history);
      && runs[k].backup.Returned? && file.Present? && file.status.consistency == Some(runs[k].backup.consistency)
      && ((file.status.lastResult.Failed? || file.status.failureCode.Some?) <==> k + 1 < |runs|)
  {
    StatusReflectsHistory(c, history);
    GoodRunReads(c, Recordings(history)[k]);
    hide Succeeded, Fold, Recordings;
    var runs, s := Recordings(history), Fold(c, Missing, history).status;
    ErrorOfGood(c, runs[|runs| - 1]);
    assert s.failures == |runs| - 1 - k;
  }

  lemma ErrorOfGood(c: Clock, a: Attempt)
    requires Recorded(a)
    ensures ErrorOf(c, a).None? <==> Succeeded(c, a)
  {
    hide ArchiveChar;
  }

  lemma NoGoodRun(c: Clock, history: seq<Attempt>)
    requires forall i :: 0 <= i < |Recordings(history)| ==> !Succeeded(c, Recordings(history)[i])
    ensures var file := Fold(c, Missing, history);
      file.Missing? || (file.Present? && file.status.consistency.None?)
  {
    StatusReflectsHistory(c, history);
    hide Succeeded, Fold, Recordings;
  }

  /**
   * Health over arbitrary histories from an empty start: nothing to report until a run succeeds; then the
   * last good run's point decides, unless it lies ahead; and every failure since then is reported.
   */
  lemma HealthReflectsHistory(c: Clock, history: seq<Attempt>, now: nat)
    ensures var runs := Recordings(history);
      (forall i :: 0 <= i < |runs| ==> !Succeeded(c, runs[i])) ==>
        HealthOf(c, Fold(c, Missing, history), now) == MissingStatus
    ensures forall k: nat :: LastGood(c, Recordings(history), k) ==>
      && Recordings(history)[k].backup.Returned? && c.read(Recordings(history)[k].backup.consistency).Some?
      && HealthOf(c, Fold(c, Missing, history), now)
         == var point := c.read(Recordings(history)[k].backup.consistency).value;
            if now + ONE_SECOND <= point then FutureStatus
            else if k + 1 < |Recordings(history)| then FailedRun
            else if now < point + SIX_HOURS + ONE_SECOND then Healthy
            else Stale
  {
    var runs, file := Recordings(history), Fold(c, Missing, history);
    HealthOfFile(c, file, now);
    hide HealthOf, Fold, Recordings, Succeeded;
    if forall i :: 0 <= i < |runs| ==> !Succeeded(c, runs[i]) {
      NoGoodRun(c, history);
    }
    forall k: nat | LastGood(c, runs, k)
      ensures runs[k].backup.Returned? && c.read(runs[k].backup.consistency).Some?
      ensures HoldsPoint(c, file, c.read(runs[k].backup.consistency).value)
      ensures (file.status.lastResult.Failed? || file.status.failureCode.Some?) <==> k + 1 < |runs|
    {
      GoodRunReads(c, runs[k]);
      FileOfHistory(c, history, k);
    }
    hide LastGood;
  }

  /** A failed run is never HEALTHY, however fresh the point before it. */
  lemma FailureIsReported(c: Clock, history: seq<Attempt>, a: Attempt, now: nat)
    requires Begins(Fold(c, Missing, history), a) && ErrorOf(c, a).Some?
    ensures !HealthOf(c, Step(c, Fold(c, Missing, history), a).0, now).Healthy?
  {
    var file := Fold(c, Missing, history);
    RecordsExactly(c, file, a);
    SoundExactly(c, a.backup);
    HealthOfFile(c, Step(c, file, a).0, now);
    hide HealthOf, Fold, Step, SoundResult, WellFormed;
    var after := Step(c, file, a).0;
    if after.status.consistency.Some? && c.read(after.status.consistency.value).Some? {
      assert HoldsPoint(c, after, c.read(after.status.consistency.value).value);
    }
  }
}
