/** The scheduler's status file and what a run makes of it (tools/backup/m29_scheduler.py). */
module RunStatus {
  import opened Common
  import opened Instants
  import opened Schedule
  import Manifests

  /** Printing and reading UTC timestamps; reading undoes printing to the second. */
  datatype Clock = Clock(print_: nat -> string, read: string -> Option<nat>)

  ghost predicate LawfulClock(c: Clock) {
    forall t: nat :: c.read(c.print_(t)) == Some(t - t % SECOND)
  }

  datatype ErrorKind = SchedulerFailure | InfrastructureError

  datatype BackupOutcome =
    | Returned(archive: string, digest: string, consistency: string, offHost: string)
    | BackupRaised(error: ErrorKind)

  datatype RetentionOutcome = RetentionPassed | RetentionRaised(error: ErrorKind)

  /** One invocation: its tier, whether the lock was free, its start and end, and what the runners did. */
  datatype Attempt = Attempt(tier: string, lockFree: bool, started: nat, ended: nat,
                             backup: BackupOutcome, retention: RetentionOutcome)

  datatype Verdict = NotRun | Pass | Failure
  datatype LastResult = NothingYet | Success | Failed

  datatype Status = Status(
    lastAttempt: string, lastSuccess: Option<string>, consistency: Option<string>,
    archive: Option<string>, digest: Option<string>, offHost: string,
    duration: nat, retention: Verdict, nextRun: string,
    failureCode: Option<ErrorKind>, failures: nat, lastResult: LastResult)

  datatype StatusFile = Missing | Unreadable | Present(status: Status)

  /** How an invocation ends: an exit code, or an error raised before anything is recorded. */
  datatype Exit = Code(n: nat) | Raised

  predicate ArchiveChar(ch: char) {
    'A' <= ch <= 'Z' || 'a' <= ch <= 'z' || '0' <= ch <= '9' || ch == '.' || ch == '_' || ch == '-'
  }

  predicate WellFormed(c: Clock, b: BackupOutcome) {
    && b.Returned?
    && b.archive != "" && (forall i :: 0 <= i < |b.archive| ==> ArchiveChar(b.archive[i]))
    && Manifests.IsHex(b.digest, 64)
    && c.read(b.consistency).Some?
  }

  predicate KnownTier(tier: string) { tier == "intraday" || tier == "daily" || tier == "monthly" }

  /** max(0, int((utc_now() - started).total_seconds())). */
  function Duration(a: Attempt): nat {
    if a.started <= a.ended then (a.ended - a.started) / SECOND else 0
  }

  /** _base_status: what a run starts from, given the file of the run before. */
  function Base(c: Clock, previous: StatusFile, started: nat): Status {
    var nextRun := c.print_(NextSlot(started));
    match previous
    case Present(p) => Status(c.print_(started), p.lastSuccess, p.consistency, p.archive, p.digest, p.offHost,
                              0, NotRun, nextRun, None, p.failures, NothingYet)
    case _ => Status(c.print_(started), None, None, None, None, "NOT_RUN", 0, NotRun, nextRun, None, 0, NothingYet)
  }

  function FailedStatus(base: Status, a: Attempt, error: ErrorKind, retentionStarted: bool): Status {
    base.(duration := Duration(a), failureCode := Some(error), lastResult := Failed,
          retention := if retentionStarted then Failure else NotRun, failures := base.failures + 1)
  }

  function SuccessStatus(c: Clock, base: Status, a: Attempt): Status
    requires a.backup.Returned?
  {
    base.(lastSuccess := Some(c.print_(a.started)), consistency := Some(a.backup.consistency),
          archive := Some(a.backup.archive), digest := Some(a.backup.digest), offHost := a.backup.offHost,
          duration := Duration(a), retention := Pass, failureCode := None, failures := 0, lastResult := Success)
  }

  function ExitOf(error: ErrorKind): Exit {
    if error.SchedulerFailure? then Code(1) else Code(2)
  }

  /** run_once: an unknown tier, a busy lock or an unreadable file raises before anything is recorded. */
  function Step(c: Clock, file: StatusFile, a: Attempt): (StatusFile, Exit) {
    if !KnownTier(a.tier) || !a.lockFree || file.Unreadable? then (file, Raised)
    else
      var base := Base(c, file, a.started);
      if a.backup.BackupRaised? then
        (Present(FailedStatus(base, a, a.backup.error, false)), ExitOf(a.backup.error))
      else if !WellFormed(c, a.backup) then
        (Present(FailedStatus(base, a, SchedulerFailure, false)), Code(1))
      else if a.retention.RetentionRaised? then
        (Present(FailedStatus(base, a, a.retention.error, true)), ExitOf(a.retention.error))
      else (Present(SuccessStatus(c, base, a)), Code(0))
  }

  /** The file after a history of invocations. */
  function Fold(c: Clock, file: StatusFile, history: seq<Attempt>): StatusFile {
    if history == [] then file
    else Step(c, Fold(c, file, history[..|history| - 1]), history[|history| - 1]).0
  }

  // ----- the status file as the run history -----

  predicate Recorded(a: Attempt) { KnownTier(a.tier) && a.lockFree }

  predicate Succeeded(c: Clock, a: Attempt) {
    Recorded(a) && WellFormed(c, a.backup) && a.retention.RetentionPassed?
  }

  /** The invocations that got as far as writing the file. */
  function Recordings(history: seq<Attempt>): (r: seq<Attempt>)
    ensures forall a :: a in r ==> Recorded(a)
  {
    if history == [] then []
    else
      var earlier, last := Recordings(history[..|history| - 1]), history[|history| - 1];
      if Recorded(last) then earlier + [last] else earlier
  }

  /** The n runs at the end failed, and the run before them, if any, succeeded. */
  predicate TrailingFailures(c: Clock, runs: seq<Attempt>, n: nat) {
    && n <= |runs|
    && (forall i :: |runs| - n <= i < |runs| ==> !Succeeded(c, runs[i]))
    && (n < |runs| ==> Succeeded(c, runs[|runs| - n - 1]))
  }

  /** The recovery-point fields are those of a given successful run. */
  predicate FieldsOf(c: Clock, s: Status, a: Attempt) {
    && a.backup.Returned?
    && s.lastSuccess == Some(c.print_(a.started)) && s.consistency == Some(a.backup.consistency)
    && s.archive == Some(a.backup.archive) && s.digest == Some(a.backup.digest) && s.offHost == a.backup.offHost
  }

  predicate NoFields(s: Status) {
    s.lastSuccess == s.consistency == s.archive == s.digest == None && s.offHost == "NOT_RUN"
  }

  /** The error a recorded run ends with: its backup's, a malformed result's, or its retention's. */
  function ErrorOf(c: Clock, a: Attempt): Option<ErrorKind> {
    if a.backup.BackupRaised? then Some(a.backup.error)
    else if !WellFormed(c, a.backup) then Some(SchedulerFailure)
    else if a.retention.RetentionRaised? then Some(a.retention.error)
    else None
  }

  /** The whole record read off the recorded runs alone. */
  predicate Reflects(c: Clock, s: Status, runs: seq<Attempt>)
    requires runs != []
  {
    var last := runs[|runs| - 1];
    && TrailingFailures(c, runs, s.failures)
    && (if s.failures < |runs| then FieldsOf(c, s, runs[|runs| - s.failures - 1]) else NoFields(s))
    && s.failureCode == ErrorOf(c, last)
    && (s.lastResult.Success? <==> Succeeded(c, last)) && !s.lastResult.NothingYet?
    && (s.retention.Failure? <==> WellFormed(c, last.backup) && last.retention.RetentionRaised?)
    && (s.retention.Pass? <==> Succeeded(c, last))
    && s.lastAttempt == c.print_(last.started) && s.nextRun == c.print_(NextSlot(last.started))
    && s.duration == Duration(last)
  }

  lemma TrailingExtends(c: Clock, runs: seq<Attempt>, n: nat, a: Attempt)
    requires TrailingFailures(c, runs, n)
    ensures TrailingFailures(c, runs + [a], if Succeeded(c, a) then 0 else n + 1)
  {
    hide Succeeded;
    var all := runs + [a];
    assert forall i :: 0 <= i < |runs| ==> all[i] == runs[i];
  }

  lemma FirstRecording(c: Clock, a: Attempt)
    requires Recorded(a)
    ensures Step(c, Missing, a).0.Present? && Reflects(c, Step(c, Missing, a).0.status, [a])
  {
    TrailingExtends(c, [], 0, a);
    assert [] + [a] == [a];
    hide WellFormed, TrailingFailures;
  }

  lemma NextRecording(c: Clock, s: Status, runs: seq<Attempt>, a: Attempt)
    requires runs != [] && Reflects(c, s, runs) && Recorded(a)
    ensures Step(c, Present(s), a).0.Present? && Reflects(c, Step(c, Present(s), a).0.status, runs + [a])
  {
    TrailingExtends(c, runs, s.failures, a);
    var all, s' := runs + [a], Step(c, Present(s), a).0.status;
    assert all[|all| - 1] == a;
    assert s'.failures == if Succeeded(c, a) then 0 else s.failures + 1 by {
      hide WellFormed;
    }
    hide WellFormed, TrailingFailures;
    if !Succeeded(c, a) && s.failures < |runs| {
      assert all[|all| - s'.failures - 1] == runs[|runs| - s.failures - 1];
    }
  }

  /**
   * The status file refines the run history: after any sequence of invocations from an empty start,
   * it is absent while nothing was recorded and otherwise says exactly what the recorded runs say.
   */
  lemma {:induction false} StatusReflectsHistory(c: Clock, history: seq<Attempt>)
    ensures Recordings(history) == [] ==> Fold(c, Missing, history) == Missing
    ensures Recordings(history) != [] ==>
      Fold(c, Missing, history).Present? && Reflects(c, Fold(c, Missing, history).status, Recordings(history))
    decreases |history|
  {
    if history != [] {
      var earlier, last := history[..|history| - 1], history[|history| - 1];
      StatusReflectsHistory(c, earlier);
      hide Reflects, WellFormed, Base, FailedStatus, SuccessStatus, KnownTier;
      if Recorded(last) {
        if Recordings(earlier) == [] {
          FirstRecording(c, last);
          assert Recordings(history) == [last];
        } else {
          NextRecording(c, Fold(c, Missing, earlier).status, Recordings(earlier), last);
        }
      }
    }
  }

  // ----- health -----

  datatype Health = MissingStatus | InvalidStatus | FutureStatus | FailedRun | Healthy | Stale | Raises

  /** int((now - point).total_seconds()): truncated toward zero. */
  function AgeSeconds(now: nat, point: nat): int {
    if point <= now then (now - point) / SECOND else -((point - now) / SECOND)
  }

  function HealthOf(c: Clock, file: StatusFile, now: nat): Health {
    match file
    case Unreadable => Raises
    case Missing => MissingStatus
    case Present(s) =>
      if s.consistency.None? then MissingStatus
      else
        match c.read(s.consistency.value)
        case None => InvalidStatus
        case Some(point) =>
          var age := AgeSeconds(now, point);
          if age < 0 then FutureStatus
          else if s.lastResult.Failed? || s.failureCode.Some? then FailedRun
          else if age <= RPO / SECOND then Healthy
          else Stale
  }

  /** The scheduler of one instance: its status file and, when configured apart, the monitoring copy. */
  class Scheduler {
    const clock: Clock
    const separateMonitoring: bool
    var statusFile: StatusFile
    var monitoringFile: StatusFile

    constructor (clock: Clock, separateMonitoring: bool, file: StatusFile)
      ensures this.clock == clock && this.separateMonitoring == separateMonitoring
      ensures statusFile == file && monitoringFile == Missing
    {
      this.clock, this.separateMonitoring := clock, separateMonitoring;
      statusFile, monitoringFile := file, Missing;
    }

    method WriteStatus(s: Status)
      modifies this
      ensures statusFile == Present(s)
      ensures monitoringFile == if separateMonitoring then Present(s) else old(monitoringFile)
    {
      statusFile := Present(s);
      if separateMonitoring {
        monitoringFile := Present(s);
      }
    }

    /** run_once, updating the status record in place; the monitoring copy is written with the file or not at all. */
    method RunOnce(a: Attempt) returns (exit: Exit)
      modifies this
      ensures (statusFile, exit) == Step(clock, old(statusFile), a)
      ensures exit.Raised? ==> monitoringFile == old(monitoringFile)
      ensures !exit.Raised? && separateMonitoring ==> monitoringFile == statusFile
    {
      hide WellFormed;
      if !KnownTier(a.tier) || !a.lockFree || statusFile.Unreadable? {
        return Raised;
      }
      var status := Base(clock, statusFile, a.started);
      var retentionStarted := false;
      var error: Option<ErrorKind> := None;
      if a.backup.BackupRaised? {
        error := Some(a.backup.error);
      } else if !WellFormed(clock, a.backup) {
        error := Some(SchedulerFailure);
      } else {
        retentionStarted := true;
        if a.retention.RetentionRaised? {
          error := Some(a.retention.error);
        }
      }
      if error.Some? {
        status := FailedStatus(status, a, error.value, retentionStarted);
        WriteStatus(status);
        return ExitOf(error.value);
      }
      status := SuccessStatus(clock, status, a);
      WriteStatus(status);
      return Code(0);
    }
  }
}
