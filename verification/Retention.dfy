/** Pruning a recovery repository by age, never touching the newest point of a source. */
module Retention {
  import opened Common
  import opened Manifests
  import opened RecoveryPoint
  import opened Instants

  type Identity = (Json, Json, Json)

  /** A verified point that is not dated in the future. */
  datatype Record = Record(base: string, source: Identity, pointClass: Json, created: nat)

  /** Points are named by their archive: these are the archives some manifest file stands for. */
  function Bases(dir: Directory): (bases: set<string>)
    ensures forall b :: b in bases <==> ManifestFile(b) in dir
  {
    var suffix := ".manifest.json";
    var bases := set n | n in dir && EndsWith(n, suffix) :: n[..|n| - |suffix|];
    assert forall b :: b in bases <==> ManifestFile(b) in dir by {
      forall n | EndsWith(n, suffix)
        ensures n == ManifestFile(n[..|n| - |suffix|])
      {
        assert n == n[..|n| - |suffix|] + n[|n| - |suffix|..];
      }
      forall b
        ensures EndsWith(ManifestFile(b), suffix) && ManifestFile(b)[..|ManifestFile(b)| - |suffix|] == b
      {
      }
    }
    bases
  }

  function FilesOf(base: string): set<string> {
    {base, ManifestFile(base), ChecksumFile(base)}
  }

  function AllFiles(bases: set<string>): set<string> {
    set b, n | b in bases && n in FilesOf(b) :: n
  }

  function ManifestNames(bases: set<string>): set<string> {
    set b | b in bases :: ManifestFile(b)
  }

  // ----- records -----

  function RecordFrom(t: Tools, base: string, m: Json): Record {
    var source, created := Part(m, Source), Stamp(t, Part(m, CreatedUtc));
    Record(base, (Part(source, InstanceSlug), Part(source, DatabaseName), Part(source, EnvironmentId)),
           Part(m, PointClass), if created.Some? then created.value else 0)
  }

  /** The verified point behind a manifest file, or why it is not one. */
  function PointOf(t: Tools, dir: Directory, base: string): (r: Result<Record>)
    ensures r.Ok? ==> r.value.base == base
  {
    hide CheckManifest;
    match VerifyOuter(t, dir, base)
    case Err(kind) => Err(kind)
    case Ok(m) => Ok(RecordFrom(t, base, m))
  }

  /** The points a run at this time works with: verified, and not dated in the future. */
  predicate Live(t: Tools, dir: Directory, now: nat, base: string) {
    base in Bases(dir) && PointOf(t, dir, base).Ok? && PointOf(t, dir, base).value.created <= now
  }

  function Deadline(created: nat, pointClass: Json): int {
    if pointClass == Text("intraday") then created + 7 * DAY
    else if pointClass == Text("daily") then created + 30 * DAY
    else ShiftMonths(created, 12)
  }

  /** A daily point outlives an intraday point of the same moment, and a monthly one outlives both. */
  lemma DeadlinesOrdered(created: nat)
    ensures Deadline(created, Text("intraday")) < Deadline(created, Text("daily")) < Deadline(created, Text("monthly"))
    ensures created + 365 * DAY <= Deadline(created, Text("monthly")) <= created + 366 * DAY
  {
    YearAhead(created);
    ClassDeadlines(created);
    hide ShiftMonths, Deadline;
  }

  lemma ClassDeadlines(created: nat)
    ensures Deadline(created, Text("intraday")) == created + 7 * DAY
    ensures Deadline(created, Text("daily")) == created + 30 * DAY
    ensures Deadline(created, Text("monthly")) == ShiftMonths(created, 12)
  {
    assert |"intraday"| == 8 && |"daily"| == 5 && |"monthly"| == 7;
    hide ShiftMonths;
  }

  /** The order of (created, manifest name). */
  predicate Newer(a: Record, b: Record) {
    a.created > b.created || (a.created == b.created && TextLess(ManifestFile(b.base), ManifestFile(a.base)))
  }

  predicate Outranks(a: Record, b: Record) { a.source == b.source && Newer(a, b) }

  /** Some live point of the same source is newer. */
  predicate Superseded(t: Tools, dir: Directory, now: nat, r: Record) {
    exists b :: b in Bases(dir) && Live(t, dir, now, b) && Outranks(PointOf(t, dir, b).value, r)
  }

  /** Points a run deletes: live, past their deadline, and not the newest of their source. */
  predicate Doomed(t: Tools, dir: Directory, now: nat, base: string) {
    && Live(t, dir, now, base)
    && Superseded(t, dir, now, PointOf(t, dir, base).value)
    && Deadline(PointOf(t, dir, base).value.created, PointOf(t, dir, base).value.pointClass) < now
  }

  function DoomedSet(t: Tools, dir: Directory, now: nat): (bases: set<string>)
    ensures forall b :: b in bases <==> Doomed(t, dir, now, b)
  {
    set b | b in Bases(dir) && Doomed(t, dir, now, b)
  }

  /** What a run at a time leaves, whatever the order it scans in. */
  function Retained(t: Tools, dir: Directory, now: nat): Directory {
    dir - AllFiles(DoomedSet(t, dir, now))
  }

  // ----- the order on points -----

  lemma NewerTotal(a: Record, b: Record)
    ensures a.base != b.base ==> Newer(a, b) || Newer(b, a)
    ensures !(Newer(a, b) && Newer(b, a))
  {
    TextLessTotal(ManifestFile(a.base), ManifestFile(b.base));
    if a.base != b.base {
      assert ManifestFile(a.base)[..|a.base|] == a.base && ManifestFile(b.base)[..|b.base|] == b.base;
    }
    if TextLess(ManifestFile(b.base), ManifestFile(a.base)) {
      TextLessAsymmetric(ManifestFile(b.base), ManifestFile(a.base));
    }
  }

  lemma NewerTransitive(a: Record, b: Record, c: Record)
    requires Newer(a, b) && Newer(b, c)
    ensures Newer(a, c)
  {
    if a.created == b.created == c.created {
      TextLessTransitive(ManifestFile(c.base), ManifestFile(b.base), ManifestFile(a.base));
    }
  }

  lemma {:induction false} NewestOf(records: set<Record>) returns (top: Record)
    requires records != {}
    requires forall a, b :: a in records && b in records && a.base == b.base ==> a == b
    ensures top in records && forall r :: r in records && r != top ==> Newer(top, r)
  {
    var r :| r in records;
    var rest := records - {r};
    assert records == {r} + rest;
    if rest == {} {
      top := r;
    } else {
      var best := NewestOf(rest);
      NewerTotal(best, r);
      if Newer(best, r) {
        top := best;
      } else {
        top := r;
        forall x | x in records && x != r
          ensures Newer(r, x)
        {
          if x != best {
            NewerTransitive(r, best, x);
          }
        }
      }
    }
  }

  // ----- what deleting some points does to the others -----

  lemma VerifiedSuffix(t: Tools, dir: Directory, base: string)
    requires PointOf(t, dir, base).Ok?
    ensures EndsWith(base, ".tar.age") && IsFile(dir, base)
    ensures IsFile(dir, ManifestFile(base)) && IsFile(dir, ChecksumFile(base))
  {
    VerifiedIsComplete(t, dir, base);
    hide VerifyOuter;
  }

  /** The files of two points never overlap when both are named .tar.age. */
  lemma FilesApart(a: string, b: string)
    requires a != b && EndsWith(a, ".tar.age")
    ensures ManifestFile(b) !in FilesOf(a)
    ensures EndsWith(b, ".tar.age") ==> FilesOf(a) !! FilesOf(b)
  {
    var ma, mb, ca, cb := ManifestFile(a), ManifestFile(b), ChecksumFile(a), ChecksumFile(b);
    assert ma[..|a|] == a && mb[..|b|] == b && ca[..|a|] == a && cb[..|b|] == b;
    assert a[|a| - 1] == 'e' && ma[|ma| - 1] == mb[|mb| - 1] == 'n' && ca[|ca| - 1] == cb[|cb| - 1] == '6';
    if EndsWith(b, ".tar.age") {
      assert b[|b| - 1] == 'e';
    }
  }

  lemma NotAnArchiveName(t: Tools, dir: Directory, base: string)
    requires !EndsWith(base, ".tar.age")
    ensures VerifyOuter(t, dir, base)
            == if ReadManifest(t, dir, base).Err? then ReadManifest(t, dir, base) else Err(Refused)
  {
    if VerifyOuter(t, dir, base).Ok? {
      VerifiedIsComplete(t, dir, base);
    }
    hide CheckManifest, ReadManifest, EndsWith, ArchiveMatches, ChecksumMatches, ValidArchive;
  }

  /** A partial deletion of doomed points: whole points' files at most, and every manifest among them. */
  ghost predicate Deletes(t: Tools, dir: Directory, points: set<string>, files: set<string>) {
    && (forall b :: b in points ==> PointOf(t, dir, b).Ok?)
    && ManifestNames(points) <= files <= AllFiles(points)
  }

  lemma KeptFiles(t: Tools, dir: Directory, points: set<string>, files: set<string>, base: string)
    requires Deletes(t, dir, points, files) && base !in points
    ensures ManifestFile(base) !in files
    ensures EndsWith(base, ".tar.age") ==> FilesOf(base) !! files
  {
    hide PointOf, EndsWith, FilesOf, ManifestFile;
    forall b | b in points
      ensures ManifestFile(base) !in FilesOf(b) && (EndsWith(base, ".tar.age") ==> FilesOf(base) !! FilesOf(b))
    {
      VerifiedSuffix(t, dir, b);
      FilesApart(b, base);
    }
  }

  lemma ReadManifestKept(t: Tools, dir: Directory, files: set<string>, base: string)
    requires ManifestFile(base) !in files
    ensures ReadManifest(t, dir - files, base) == ReadManifest(t, dir, base)
  {
    hide CheckManifest, ManifestFile;
  }

  /** The verdict on every other point is what it was; a deleted point is refused. */
  lemma VerdictAfterDelete(t: Tools, dir: Directory, points: set<string>, files: set<string>, base: string)
    requires Deletes(t, dir, points, files)
    ensures VerifyOuter(t, dir - files, base) == if base in points then Err(Refused) else VerifyOuter(t, dir, base)
  {
    hide EndsWith, CheckManifest, AllFiles, PointOf;
    if base in points {
      assert ManifestFile(base) in ManifestNames(points);
      hide ManifestFile;
    } else {
      KeptFiles(t, dir, points, files, base);
      ReadManifestKept(t, dir, files, base);
      hide VerifyOuter, ReadManifest, ManifestFile, ChecksumFile;
      if EndsWith(base, ".tar.age") {
        VerifyIsLocal(t, dir - files, dir, base);
      } else {
        NotAnArchiveName(t, dir - files, base);
        NotAnArchiveName(t, dir, base);
      }
    }
  }

  lemma LiveAfterDelete(t: Tools, dir: Directory, points: set<string>, files: set<string>, now: nat, base: string)
    requires Deletes(t, dir, points, files)
    ensures Live(t, dir - files, now, base) <==> base !in points && Live(t, dir, now, base)
    ensures base !in points ==> PointOf(t, dir - files, base) == PointOf(t, dir, base)
  {
    VerdictAfterDelete(t, dir, points, files, base);
    if base !in points {
      KeptFiles(t, dir, points, files, base);
    }
    hide VerifyOuter, EndsWith, AllFiles, ManifestNames, FilesOf, ManifestFile;
  }

  // ----- retention is confluent in time -----

  lemma LiveLater(t: Tools, dir: Directory, t1: nat, t2: nat, base: string)
    requires t1 <= t2 && Live(t, dir, t1, base)
    ensures Live(t, dir, t2, base)
  {
    hide PointOf;
  }

  /** What one run deletes, every later run deletes too. */
  lemma DoomedLater(t: Tools, dir: Directory, t1: nat, t2: nat)
    requires t1 <= t2
    ensures DoomedSet(t, dir, t1) <= DoomedSet(t, dir, t2)
  {
    hide PointOf, Outranks, Deadline;
    forall b | Doomed(t, dir, t1, b)
      ensures Doomed(t, dir, t2, b)
    {
      var r := PointOf(t, dir, b).value;
      var o :| o in Bases(dir) && Live(t, dir, t1, o) && Outranks(PointOf(t, dir, o).value, r);
      LiveLater(t, dir, t1, t2, o);
      LiveLater(t, dir, t1, t2, b);
    }
  }

  /** The live points of one source. */
  ghost function Rivals(t: Tools, dir: Directory, now: nat, source: Identity): (rivals: set<Record>)
    ensures forall r :: r in rivals <==>
      r.source == source && Live(t, dir, now, r.base) && PointOf(t, dir, r.base) == Ok(r)
  {
    hide PointOf;
    set b | b in Bases(dir) && Live(t, dir, now, b) && PointOf(t, dir, b).value.source == source
      :: PointOf(t, dir, b).value
  }

  /** Every source with a live point keeps one: the newest, which no run at that time deletes. */
  lemma NewestSurvives(t: Tools, dir: Directory, now: nat, base: string) returns (top: Record)
    requires Live(t, dir, now, base)
    ensures Live(t, dir, now, top.base) && PointOf(t, dir, top.base) == Ok(top)
    ensures top.source == PointOf(t, dir, base).value.source
    ensures !Superseded(t, dir, now, top) && top.base !in DoomedSet(t, dir, now)
    ensures top.base == base || Newer(top, PointOf(t, dir, base).value)
  {
    hide Newer;
    var r := PointOf(t, dir, base).value;
    var rivals := Rivals(t, dir, now, r.source);
    assert r in rivals;
    hide PointOf;
    top := NewestOf(rivals);
    if Superseded(t, dir, now, top) {
      var b :| b in Bases(dir) && Live(t, dir, now, b) && Outranks(PointOf(t, dir, b).value, top);
      assert PointOf(t, dir, b).value.base == b;
      assert PointOf(t, dir, b).value in rivals;
      NewerTotal(PointOf(t, dir, b).value, top);
      assert false;
    }
  }

  lemma SurvivorOutranks(t: Tools, dir: Directory, points: set<string>, t1: nat, now: nat, r: Record)
    returns (b: string)
    requires points <= DoomedSet(t, dir, t1) && t1 <= now && Superseded(t, dir, now, r)
    ensures b !in points && Live(t, dir, now, b) && Outranks(PointOf(t, dir, b).value, r)
  {
    hide Newer, PointOf, Deadline;
    b :| b in Bases(dir) && Live(t, dir, now, b) && Outranks(PointOf(t, dir, b).value, r);
    if b in points {
      var top := NewestSurvives(t, dir, t1, b);
      NewerTransitive(top, PointOf(t, dir, b).value, r);
      LiveLater(t, dir, t1, now, top.base);
      b := top.base;
    }
  }

  lemma DoomedAfterDelete(t: Tools, dir: Directory, points: set<string>, files: set<string>, t1: nat, now: nat,
                          base: string)
    requires points <= DoomedSet(t, dir, t1) && t1 <= now && Deletes(t, dir, points, files)
    ensures Doomed(t, dir - files, now, base) <==> base !in points && Doomed(t, dir, now, base)
  {
    var after := dir - files;
    LiveAfterDelete(t, dir, points, files, now, base);
    hide PointOf, Outranks, Deadline, Deletes, DoomedSet;
    if base !in points && Live(t, dir, now, base) {
      var r := PointOf(t, dir, base).value;
      if Superseded(t, dir, now, r) {
        var b := SurvivorOutranks(t, dir, points, t1, now, r);
        LiveAfterDelete(t, dir, points, files, now, b);
        assert b in Bases(after);
        assert Superseded(t, after, now, r);
      }
      if Superseded(t, after, now, r) {
        var b :| b in Bases(after) && Live(t, after, now, b) && Outranks(PointOf(t, after, b).value, r);
        LiveAfterDelete(t, dir, points, files, now, b);
        assert b in Bases(dir);
      }
    }
  }

  /** A later run, after any partial deletion an earlier run made, removes exactly the doomed points still there. */
  lemma RetainedAfterDelete(t: Tools, dir: Directory, points: set<string>, files: set<string>, t1: nat, now: nat)
    requires points <= DoomedSet(t, dir, t1) && t1 <= now && Deletes(t, dir, points, files)
    ensures Retained(t, dir - files, now) == (dir - files) - AllFiles(DoomedSet(t, dir, now) - points)
  {
    hide Doomed, Deletes, AllFiles;
    forall b
      ensures Doomed(t, dir - files, now, b) <==> b !in points && Doomed(t, dir, now, b)
    {
      DoomedAfterDelete(t, dir, points, files, t1, now, b);
    }
    assert DoomedSet(t, dir - files, now) == DoomedSet(t, dir, now) - points;
  }

  lemma DoomedDeletes(t: Tools, dir: Directory, now: nat, points: set<string>)
    requires points <= DoomedSet(t, dir, now)
    ensures Deletes(t, dir, points, AllFiles(points))
  {
    hide PointOf, Superseded, ManifestFile;
    assert forall b :: b in points ==> ManifestFile(b) in FilesOf(b);
  }

  /**
   * Retention is confluent in time: a run at t1 followed by a run at t2 leaves exactly what one
   * run at t2 leaves, although the first run skips points dated after it and may keep other newest points.
   */
  lemma RetentionConfluent(t: Tools, dir: Directory, t1: nat, t2: nat)
    requires t1 <= t2
    ensures Retained(t, Retained(t, dir, t1), t2) == Retained(t, dir, t2)
  {
    var points := DoomedSet(t, dir, t1);
    DoomedDeletes(t, dir, t1, points);
    RetainedAfterDelete(t, dir, points, AllFiles(points), t1, t2);
    DoomedLater(t, dir, t1, t2);
    hide DoomedSet, FilesOf;
    assert AllFiles(DoomedSet(t, dir, t2)) == AllFiles(points) + AllFiles(DoomedSet(t, dir, t2) - points);
  }

  function RunAll(t: Tools, dir: Directory, times: seq<nat>): Directory {
    if times == [] then dir else RunAll(t, Retained(t, dir, times[0]), times[1..])
  }

  /** Any non-decreasing sequence of runs leaves what the last one alone leaves. */
  lemma {:induction false} RunsCollapse(t: Tools, dir: Directory, times: seq<nat>)
    requires times != [] && forall i, j :: 0 <= i < j < |times| ==> times[i] <= times[j]
    ensures RunAll(t, dir, times) == Retained(t, dir, times[|times| - 1])
    decreases |times|
  {
    hide Retained;
    if |times| == 1 {
      assert RunAll(t, Retained(t, dir, times[0]), times[1..]) == Retained(t, dir, times[0]);
    } else {
      RunsCollapse(t, Retained(t, dir, times[0]), times[1..]);
      RetentionConfluent(t, dir, times[0], times[|times| - 1]);
    }
  }
}
