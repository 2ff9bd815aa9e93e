/** Retention as it runs: scan, pick the newest of each source, delete file by file, perhaps stop half way. */
module RetentionRuns {
  import opened Common
  import opened Manifests
  import opened RecoveryPoint
  import opened Retention
  import opened Survivors

  /** The doomed points in scan order. */
  function DoomedList(t: Tools, dir: Directory, now: nat, order: seq<string>): (doomed: seq<string>)
    ensures forall b :: b in doomed <==> b in order && Doomed(t, dir, now, b)
  {
    if order == [] then []
    else
      var rest := DoomedList(t, dir, now, order[1..]);
      if Doomed(t, dir, now, order[0]) then [order[0]] + rest else rest
  }

  /** The unlink sequence: each point's manifest first, then its archive, then its checksum. */
  function Plan(doomed: seq<string>): (plan: seq<string>)
    ensures |plan| == 3 * |doomed|
  {
    if doomed == [] then []
    else [ManifestFile(doomed[0]), doomed[0], ChecksumFile(doomed[0])] + Plan(doomed[1..])
  }

  lemma {:induction false} PlanAt(doomed: seq<string>, q: nat)
    requires q < |doomed|
    ensures Plan(doomed)[3 * q] == ManifestFile(doomed[q])
    ensures Plan(doomed)[3 * q + 1] == doomed[q] && Plan(doomed)[3 * q + 2] == ChecksumFile(doomed[q])
  {
    hide ManifestFile, ChecksumFile;
    if q > 0 {
      PlanAt(doomed[1..], q - 1);
    }
  }

  lemma {:induction false} DoomedListDistinct(t: Tools, dir: Directory, now: nat, order: seq<string>)
    requires NoDuplicates(order)
    ensures NoDuplicates(DoomedList(t, dir, now, order))
  {
    hide Doomed;
    if order != [] {
      var rest := order[1..];
      assert forall i :: 0 <= i < |rest| ==> rest[i] == order[i + 1];
      DoomedListDistinct(t, dir, now, rest);
      if Doomed(t, dir, now, order[0]) {
        NoDuplicatesCons(order[0], DoomedList(t, dir, now, rest));
      }
    }
  }

  /** The points whose manifest is among the first k files of the plan. */
  function Started(doomed: seq<string>, k: nat): set<string>
    requires k <= 3 * |doomed|
  {
    ToSet(doomed[..(k + 2) / 3])
  }

  lemma OwnFiles(name: string)
    ensures ManifestFile(name) in FilesOf(name) && name in FilesOf(name) && ChecksumFile(name) in FilesOf(name)
  {
    hide ManifestFile, ChecksumFile;
  }

  lemma PlanIndex(doomed: seq<string>, i: nat)
    requires i < 3 * |doomed|
    ensures Plan(doomed)[i] in FilesOf(doomed[i / 3])
  {
    hide Plan, ManifestFile, ChecksumFile;
    var q := i / 3;
    assert i == 3 * q || i == 3 * q + 1 || i == 3 * q + 2;
    PlanAt(doomed, q);
    hide FilesOf;
    OwnFiles(doomed[q]);
  }

  /** However far a run gets, it has deleted doomed points only, each with its manifest first. */
  lemma PrefixDeletes(t: Tools, dir: Directory, now: nat, order: seq<string>, k: nat)
    requires k <= |Plan(DoomedList(t, dir, now, order))|
    ensures var doomed := DoomedList(t, dir, now, order);
      && Started(doomed, k) <= DoomedSet(t, dir, now)
      && Deletes(t, dir, Started(doomed, k), ToSet(Plan(doomed)[..k]))
  {
    hide Plan, ManifestFile, ChecksumFile, PointOf, Superseded, DoomedList, FilesOf;
    var doomed := DoomedList(t, dir, now, order);
    var plan, points := Plan(doomed), Started(doomed, k);
    forall n | n in plan[..k]
      ensures n in AllFiles(points)
    {
      var i :| 0 <= i < k && plan[i] == n;
      PlanIndex(doomed, i);
      assert doomed[..(k + 2) / 3][i / 3] in points;
    }
    forall n | n in ManifestNames(points)
      ensures n in plan[..k]
    {
      var b :| b in points && n == ManifestFile(b);
      var q :| 0 <= q < (k + 2) / 3 && doomed[q] == b;
      PlanAt(doomed, q);
      assert plan[..k][3 * q] == n;
    }
  }

  /** The files an interrupted run leaves orphaned: at most the archive and the checksum of one point. */
  function Orphans(doomed: seq<string>, k: nat): set<string>
    requires k <= 3 * |doomed|
  {
    AllFiles(Started(doomed, k)) - ToSet(Plan(doomed)[..k])
  }

  lemma DoneFiles(doomed: seq<string>, k: nat, q: nat)
    requires q < |doomed| && k <= 3 * |doomed|
    ensures 3 * q + 3 <= k ==> FilesOf(doomed[q]) <= ToSet(Plan(doomed)[..k])
  {
    if 3 * q + 3 <= k {
      PlanAt(doomed, q);
      hide Plan, ManifestFile, ChecksumFile;
      var done := Plan(doomed)[..k];
      assert done[3 * q] in done && done[3 * q + 1] in done && done[3 * q + 2] in done;
    }
  }

  lemma OrphansOfOne(doomed: seq<string>, k: nat)
    requires k <= 3 * |doomed|
    ensures k % 3 == 0 ==> Orphans(doomed, k) == {}
    ensures k % 3 != 0 ==> Orphans(doomed, k) <= {doomed[k / 3], ChecksumFile(doomed[k / 3])}
  {
    hide Plan, ManifestFile, ChecksumFile;
    var plan := Plan(doomed);
    forall n | n in Orphans(doomed, k)
      ensures k % 3 != 0 && n in {doomed[k / 3], ChecksumFile(doomed[k / 3])}
    {
      var b :| b in Started(doomed, k) && n in FilesOf(b);
      var q :| 0 <= q < (k + 2) / 3 && doomed[q] == b;
      PlanAt(doomed, q);
      assert plan[..k][3 * q] == ManifestFile(b);
      DoneFiles(doomed, k, q);
    }
  }

  /** A point a run has not started on verifies as before, and one it has started on has lost its manifest. */
  lemma PrefixVerdict(t: Tools, dir: Directory, now: nat, order: seq<string>, k: nat, base: string)
    requires k <= |Plan(DoomedList(t, dir, now, order))|
    ensures var doomed := DoomedList(t, dir, now, order);
      var middle := dir - ToSet(Plan(doomed)[..k]);
      && (base in Started(doomed, k) ==> Doomed(t, dir, now, base) && ManifestFile(base) !in middle)
      && (base !in Started(doomed, k) ==> PointOf(t, middle, base) == PointOf(t, dir, base))
  {
    PrefixDeletes(t, dir, now, order, k);
    var doomed := DoomedList(t, dir, now, order);
    var files := ToSet(Plan(doomed)[..k]);
    hide Plan, ManifestFile, Started, DoomedList;
    VerdictAfterDelete(t, dir, Started(doomed, k), files, base);
    if base in Started(doomed, k) {
      assert ManifestFile(base) in ManifestNames(Started(doomed, k));
    }
    hide VerifyOuter, Superseded;
  }

  /** At every moment of a run, every source that had a verified point has its newest one, complete. */
  lemma NewestStaysComplete(t: Tools, dir: Directory, now: nat, order: seq<string>, k: nat, base: string)
    returns (top: Record)
    requires k <= |Plan(DoomedList(t, dir, now, order))| && Live(t, dir, now, base)
    ensures top.source == PointOf(t, dir, base).value.source
    ensures top.base == base || Newer(top, PointOf(t, dir, base).value)
    ensures !Superseded(t, dir, now, top)
    ensures PointOf(t, dir - ToSet(Plan(DoomedList(t, dir, now, order))[..k]), top.base) == Ok(top)
  {
    top := NewestSurvives(t, dir, now, base);
    PrefixDeletes(t, dir, now, order, k);
    PrefixVerdict(t, dir, now, order, k, top.base);
    hide PointOf, Plan, Started, Superseded;
  }

  /** However far a run gets, or if it does nothing, the newest verified point of every source is left. */
  lemma PrefixKeepsNewest(t: Tools, dir: Directory, now: nat, order: seq<string>, k: nat)
    requires k <= |Plan(DoomedList(t, dir, now, order))|
    ensures KeepsNewest(t, dir, dir - ToSet(Plan(DoomedList(t, dir, now, order))[..k]), now)
    ensures k == 0 ==> KeepsNewest(t, dir, dir, now)
  {
    PrefixDeletes(t, dir, now, order, k);
    hide Plan, DoomedList, DoomedSet, Deletes, KeepsNewest, Started;
    var doomed := DoomedList(t, dir, now, order);
    DeletingKeepsNewest(t, dir, Started(doomed, k), ToSet(Plan(doomed)[..k]), now);
    assert k == 0 ==> dir - ToSet(Plan(doomed)[..k]) == dir;
  }

  /** A newer point of the same source, one no run deletes, verifies in a directory a run has reached. */
  ghost predicate Outlived(t: Tools, dir: Directory, now: nat, middle: Directory, lost: Record) {
    exists top: Record ::
      Outranks(top, lost) && !Superseded(t, dir, now, top) && PointOf(t, middle, top.base) == Ok(top)
  }

  /**
   * Interruption is safe: after any prefix of the deletions every point not yet started on verifies
   * as before, so every remaining manifest of a verified point still has its archive and checksum;
   * every point started on is past its deadline and outranked by a complete point no run deletes.
   */
  lemma InterruptionSafe(t: Tools, dir: Directory, now: nat, order: seq<string>, k: nat, base: string)
    requires k <= |Plan(DoomedList(t, dir, now, order))|
    ensures var doomed := DoomedList(t, dir, now, order);
      var middle := dir - ToSet(Plan(doomed)[..k]);
      && (base in Started(doomed, k) ==> Doomed(t, dir, now, base) && ManifestFile(base) !in middle
                                         && Outlived(t, dir, now, middle, PointOf(t, dir, base).value))
      && (base !in Started(doomed, k) ==> PointOf(t, middle, base) == PointOf(t, dir, base))
  {
    PrefixVerdict(t, dir, now, order, k, base);
    hide Plan, ManifestFile, Started, DoomedList, PointOf, Superseded;
    if base in Started(DoomedList(t, dir, now, order), k) {
      var top := NewestStaysComplete(t, dir, now, order, k, base);
      PointBase(t, dir, base);
      PointBase(t, dir - ToSet(Plan(DoomedList(t, dir, now, order))[..k]), top.base);
    }
  }

  lemma DoomedApart(t: Tools, dir: Directory, now: nat, points: set<string>)
    requires points <= DoomedSet(t, dir, now)
    ensures AllFiles(points) !! AllFiles(DoomedSet(t, dir, now) - points)
  {
    hide PointOf, Superseded, FilesOf, EndsWith;
    forall a, b | a in points && b in DoomedSet(t, dir, now) - points
      ensures FilesOf(a) !! FilesOf(b)
    {
      VerifiedSuffix(t, dir, a);
      VerifiedSuffix(t, dir, b);
      FilesApart(a, b);
    }
  }

  lemma DeletesOnly(t: Tools, dir: Directory, points: set<string>, files: set<string>)
    requires Deletes(t, dir, points, files)
    ensures files <= AllFiles(points)
  {
    hide PointOf, FilesOf, ManifestFile;
  }

  lemma LeftBehind(dir: Directory, done: set<string>, started: set<string>, rest: set<string>)
    requires done <= started && started !! rest
    ensures (dir - done) - rest == dir - ((started + rest) - (started - done))
  {
  }

  lemma AllFilesSplit(all: set<string>, part: set<string>)
    requires part <= all
    ensures AllFiles(all) == AllFiles(part) + AllFiles(all - part)
  {
    hide FilesOf;
  }

  /**
   * A later full run after an interrupted one leaves what it would have left anyway, plus the
   * orphans of the one point that was half deleted.
   */
  lemma InterruptedRunHeals(t: Tools, dir: Directory, t1: nat, t2: nat, order: seq<string>, k: nat)
    requires k <= |Plan(DoomedList(t, dir, t1, order))| && t1 <= t2
    ensures var doomed := DoomedList(t, dir, t1, order);
      Retained(t, dir - ToSet(Plan(doomed)[..k]), t2)
      == dir - (AllFiles(DoomedSet(t, dir, t2)) - Orphans(doomed, k))
  {
    PrefixDeletes(t, dir, t1, order, k);
    var doomed := DoomedList(t, dir, t1, order);
    var points, files := Started(doomed, k), ToSet(Plan(doomed)[..k]);
    RetainedAfterDelete(t, dir, points, files, t1, t2);
    DoomedLater(t, dir, t1, t2);
    DoomedApart(t, dir, t2, points);
    DeletesOnly(t, dir, points, files);
    AllFilesSplit(DoomedSet(t, dir, t2), points);
    LeftBehind(dir, files, AllFiles(points), AllFiles(DoomedSet(t, dir, t2) - points));
    hide Plan, Started, DoomedSet, AllFiles, Deletes, Retained;
  }

  // ----- the run itself -----

  predicate Escapes(t: Tools, dir: Directory) {
    exists b :: b in Bases(dir) && PointOf(t, dir, b) == Err(Escaped)
  }

  lemma EscapeKept(t: Tools, dir: Directory, points: set<string>, files: set<string>, b: string)
    requires Deletes(t, dir, points, files) && b in Bases(dir - files)
    requires PointOf(t, dir - files, b) == Err(Escaped)
    ensures b in Bases(dir) && PointOf(t, dir, b) == Err(Escaped)
  {
    VerdictAfterDelete(t, dir, points, files, b);
    hide VerifyOuter, Deletes, ManifestFile;
  }

  /** A run that completes never makes a later run fail: deleting points adds no unreadable manifest. */
  lemma NoNewEscapes(t: Tools, dir: Directory, now: nat)
    ensures Escapes(t, Retained(t, dir, now)) ==> Escapes(t, dir)
  {
    var points := DoomedSet(t, dir, now);
    DoomedDeletes(t, dir, now, points);
    hide DoomedSet, AllFiles, Deletes, PointOf, Bases;
    if Escapes(t, Retained(t, dir, now)) {
      var b :| b in Bases(Retained(t, dir, now)) && PointOf(t, Retained(t, dir, now), b) == Err(Escaped);
      EscapeKept(t, dir, points, AllFiles(points), b);
    }
  }

  lemma {:induction false} DoomedListSplit(t: Tools, dir: Directory, now: nat, a: seq<string>, b: seq<string>)
    ensures DoomedList(t, dir, now, a + b) == DoomedList(t, dir, now, a) + DoomedList(t, dir, now, b)
  {
    hide Doomed;
    if a == [] {
      assert a + b == b;
    } else {
      assert (a + b)[1..] == a[1..] + b;
      DoomedListSplit(t, dir, now, a[1..], b);
    }
  }

  lemma PlanCovers(doomed: seq<string>)
    ensures ToSet(Plan(doomed)) == AllFiles(ToSet(doomed))
  {
    hide Plan, ManifestFile, ChecksumFile;
    var plan := Plan(doomed);
    forall n | n in plan
      ensures n in AllFiles(ToSet(doomed))
    {
      var i :| 0 <= i < |plan| && plan[i] == n;
      PlanIndex(doomed, i);
    }
    forall b | b in doomed
      ensures FilesOf(b) <= ToSet(plan)
    {
      var q :| 0 <= q < |doomed| && doomed[q] == b;
      DoneFiles(doomed, |plan|, q);
      assert plan[..|plan|] == plan;
    }
  }

  /** Deleting the whole plan is what Retained says, in whatever order the directory was scanned. */
  lemma FullPlanRetains(t: Tools, dir: Directory, now: nat, order: seq<string>)
    requires ToSet(order) == Bases(dir)
    ensures dir - ToSet(Plan(DoomedList(t, dir, now, order))) == Retained(t, dir, now)
  {
    var doomed := DoomedList(t, dir, now, order);
    PlanCovers(doomed);
    hide Plan, DoomedList, PointOf, Superseded, FilesOf, Bases, AllFiles;
    assert ToSet(doomed) == DoomedSet(t, dir, now);
  }

  lemma PlanFile(t: Tools, dir: Directory, now: nat, order: seq<string>, i: nat)
    requires i < |Plan(DoomedList(t, dir, now, order))|
    ensures var doomed := DoomedList(t, dir, now, order);
      && Plan(doomed)[i] in FilesOf(doomed[i / 3])
      && IsFile(dir, Plan(doomed)[i]) && EndsWith(doomed[i / 3], ".tar.age")
  {
    var doomed := DoomedList(t, dir, now, order);
    hide Plan, DoomedList, PointOf, Superseded, ManifestFile, ChecksumFile, EndsWith;
    PlanIndex(doomed, i);
    assert doomed[i / 3] in doomed;
    VerifiedSuffix(t, dir, doomed[i / 3]);
  }

  lemma OtherPoint(t: Tools, dir: Directory, now: nat, order: seq<string>, j: nat, i: nat)
    requires j < i < |Plan(DoomedList(t, dir, now, order))|
    requires DoomedList(t, dir, now, order)[j / 3] != DoomedList(t, dir, now, order)[i / 3]
    ensures Plan(DoomedList(t, dir, now, order))[j] != Plan(DoomedList(t, dir, now, order))[i]
  {
    PlanFile(t, dir, now, order, i);
    PlanFile(t, dir, now, order, j);
    var doomed := DoomedList(t, dir, now, order);
    FilesApart(doomed[j / 3], doomed[i / 3]);
    hide *;
  }

  lemma DistinctAt(names: seq<string>, p: nat, q: nat)
    requires NoDuplicates(names) && p < q < |names|
    ensures names[p] != names[q]
  {
  }

  lemma PlanDistinct(t: Tools, dir: Directory, now: nat, order: seq<string>, j: nat, i: nat)
    requires NoDuplicates(order) && j < i < |Plan(DoomedList(t, dir, now, order))|
    ensures Plan(DoomedList(t, dir, now, order))[j] != Plan(DoomedList(t, dir, now, order))[i]
  {
    var doomed := DoomedList(t, dir, now, order);
    DoomedListDistinct(t, dir, now, order);
    var p, q := j / 3, i / 3;
    if p == q {
      hide *;
      SamePoint(doomed, q, j - 3 * q, i - 3 * q);
    } else {
      DistinctAt(doomed, p, q);
      hide *;
      OtherPoint(t, dir, now, order, j, i);
    }
  }

  /** The plan names existing files only, each once, so the check before every unlink passes. */
  lemma PlanFiles(t: Tools, dir: Directory, now: nat, order: seq<string>, i: nat)
    requires NoDuplicates(order) && i < |Plan(DoomedList(t, dir, now, order))|
    ensures IsFile(dir - ToSet(Plan(DoomedList(t, dir, now, order))[..i]), Plan(DoomedList(t, dir, now, order))[i])
  {
    PlanFile(t, dir, now, order, i);
    hide Plan, DoomedList, FilesOf, EndsWith, NoDuplicates;
    var plan := Plan(DoomedList(t, dir, now, order));
    forall j | 0 <= j < i
      ensures plan[j] != plan[i]
    {
      PlanDistinct(t, dir, now, order, j, i);
    }
  }

  function Nth(base: string, r: nat): string {
    if r == 0 then ManifestFile(base) else if r == 1 then base else ChecksumFile(base)
  }

  lemma PlanNth(doomed: seq<string>, q: nat, r: nat)
    requires q < |doomed| && r < 3
    ensures 3 * q + r < |Plan(doomed)| && Plan(doomed)[3 * q + r] == Nth(doomed[q], r)
  {
    PlanAt(doomed, q);
    hide Plan, ManifestFile, ChecksumFile;
    if r == 0 {
    } else if r == 1 {
    } else {
      assert r == 2;
    }
  }

  lemma NamesDiffer(b: string, r: nat, s: nat)
    requires r < s < 3
    ensures Nth(b, r) != Nth(b, s)
  {
    assert |ManifestFile(b)| == |b| + 14 && |ChecksumFile(b)| == |b| + 7;
  }

  lemma SamePoint(doomed: seq<string>, q: nat, r: nat, s: nat)
    requires q < |doomed| && r < s < 3
    ensures 3 * q + s < |Plan(doomed)| && Plan(doomed)[3 * q + r] != Plan(doomed)[3 * q + s]
  {
    PlanNth(doomed, q, r);
    PlanNth(doomed, q, s);
    NamesDiffer(doomed[q], r, s);
    hide Plan, Nth;
  }

  // ----- the loops -----

  function LiveList(t: Tools, dir: Directory, now: nat, order: seq<string>): seq<Record> {
    if order == [] then []
    else
      var rest := LiveList(t, dir, now, order[1..]);
      if Live(t, dir, now, order[0]) then [PointOf(t, dir, order[0]).value] + rest else rest
  }

  lemma {:induction false} LiveListSound(t: Tools, dir: Directory, now: nat, order: seq<string>)
    ensures forall r :: r in LiveList(t, dir, now, order) ==>
      r.base in order && Live(t, dir, now, r.base) && PointOf(t, dir, r.base) == Ok(r)
    decreases order
  {
    hide PointOf;
    if order != [] {
      PointBase(t, dir, order[0]);
      LiveListSound(t, dir, now, order[1..]);
    }
  }

  function BasesOf(records: seq<Record>): (bases: seq<string>)
    ensures |bases| == |records|
    ensures forall i :: 0 <= i < |records| ==> bases[i] == records[i].base
  {
    if records == [] then [] else [records[0].base] + BasesOf(records[1..])
  }

  lemma {:induction false} LiveListSplit(t: Tools, dir: Directory, now: nat, a: seq<string>, b: seq<string>)
    ensures LiveList(t, dir, now, a + b) == LiveList(t, dir, now, a) + LiveList(t, dir, now, b)
  {
    hide Live, PointOf;
    if a == [] {
      assert a + b == b;
    } else {
      assert (a + b)[1..] == a[1..] + b;
      LiveListSplit(t, dir, now, a[1..], b);
    }
  }

  lemma {:induction false} LiveListComplete(t: Tools, dir: Directory, now: nat, order: seq<string>, b: string)
    requires b in order && Live(t, dir, now, b)
    ensures PointOf(t, dir, b).value in LiveList(t, dir, now, order)
  {
    hide Live, PointOf;
    if order[0] != b {
      LiveListComplete(t, dir, now, order[1..], b);
    }
  }

  lemma {:induction false} DoomedAmongLive(t: Tools, dir: Directory, now: nat, order: seq<string>)
    ensures DoomedList(t, dir, now, BasesOf(LiveList(t, dir, now, order))) == DoomedList(t, dir, now, order)
  {
    hide PointOf, Superseded;
    if order != [] {
      DoomedAmongLive(t, dir, now, order[1..]);
      var rest := LiveList(t, dir, now, order[1..]);
      if Live(t, dir, now, order[0]) {
        PointBase(t, dir, order[0]);
        var all := [PointOf(t, dir, order[0]).value] + rest;
        assert all[1..] == rest && BasesOf(all) == [order[0]] + BasesOf(rest);
        assert BasesOf(all)[1..] == BasesOf(rest);
      }
    }
  }

  lemma PointBase(t: Tools, dir: Directory, base: string)
    ensures PointOf(t, dir, base).Ok? ==> PointOf(t, dir, base).value.base == base
  {
  }

  /** newest_by_source after some records: for each source seen, a record none of the others outranks. */
  ghost predicate NewestSoFar(newest: map<Identity, Record>, records: seq<Record>) {
    && (forall r :: r in records ==> r.source in newest)
    && (forall s :: s in newest ==> newest[s] in records && newest[s].source == s)
    && (forall r :: r in records ==> newest[r.source] == r || Newer(newest[r.source], r))
  }

  lemma NothingSeen()
    ensures NewestSoFar(map[], [])
  {
  }

  lemma NewestStep(newest: map<Identity, Record>, done: seq<Record>, r: Record)
    requires NewestSoFar(newest, done) && forall q :: q in done ==> q.base != r.base
    ensures NewestSoFar(if r.source !in newest || Newer(r, newest[r.source]) then newest[r.source := r] else newest,
                        done + [r])
  {
    hide Newer;
    if r.source in newest {
      NewerTotal(r, newest[r.source]);
      if Newer(r, newest[r.source]) {
        forall q | q in done && q.source == r.source
          ensures Newer(r, q)
        {
          if q != newest[r.source] {
            NewerTransitive(r, newest[r.source], q);
          }
        }
      }
    }
  }

  method PickNewest(records: seq<Record>) returns (newest: map<Identity, Record>)
    requires NoDuplicates(BasesOf(records))
    ensures NewestSoFar(newest, records)
  {
    hide Newer, NewestSoFar, BasesOf;
    newest := map[];
    NothingSeen();
    var i := 0;
    while i < |records|
      invariant 0 <= i <= |records|
      invariant NewestSoFar(newest, records[..i])
    {
      var r := records[i];
      assert records[..i + 1] == records[..i] + [r];
      forall q | q in records[..i]
        ensures q.base != r.base
      {
        var j :| 0 <= j < i && records[..i][j] == q;
        assert BasesOf(records)[j] != BasesOf(records)[i];
      }
      NewestStep(newest, records[..i], r);
      if r.source !in newest || Newer(r, newest[r.source]) {
        newest := newest[r.source := r];
      }
      i := i + 1;
    }
    assert records[..i] == records;
  }

  /** The rule of the deletion loop: the newest of its source, or not yet past its deadline. */
  predicate Kept(newest: map<Identity, Record>, now: nat, r: Record)
    requires r.source in newest
  {
    r.base == newest[r.source].base || now <= Deadline(r.created, r.pointClass)
  }

  /** The rule of the deletion loop, with the newest record at hand, dooms exactly the doomed points. */
  lemma KeepRule(t: Tools, dir: Directory, now: nat, order: seq<string>, newest: map<Identity, Record>, r: Record)
    requires ToSet(order) == Bases(dir) && NewestSoFar(newest, LiveList(t, dir, now, order))
    requires r in LiveList(t, dir, now, order)
    ensures Doomed(t, dir, now, r.base) <==> !Kept(newest, now, r)
  {
    LiveListSound(t, dir, now, order);
    hide PointOf, Newer, Deadline, Bases, LiveList;
    var top := newest[r.source];
    assert top in LiveList(t, dir, now, order);
    if r.base == top.base {
      if Superseded(t, dir, now, r) {
        var b :| b in Bases(dir) && Live(t, dir, now, b) && Outranks(PointOf(t, dir, b).value, r);
        LiveListComplete(t, dir, now, order, b);
        NewerTotal(PointOf(t, dir, b).value, r);
      }
    } else {
      assert Outranks(top, r) && top.base in Bases(dir);
      assert Superseded(t, dir, now, r);
    }
  }

  lemma BasesCons(r: Record, tail: seq<Record>)
    ensures BasesOf([r] + tail) == [r.base] + BasesOf(tail)
  {
    assert ([r] + tail)[1..] == tail;
  }

  lemma NotAmongBases(b: string, tail: seq<Record>)
    requires forall r :: r in tail ==> r.base != b
    ensures b !in BasesOf(tail)
  {
    assert forall i :: 0 <= i < |tail| ==> tail[i] in tail && BasesOf(tail)[i] == tail[i].base;
  }

  lemma {:induction false} BasesDistinct(t: Tools, dir: Directory, now: nat, order: seq<string>)
    requires NoDuplicates(order)
    ensures NoDuplicates(BasesOf(LiveList(t, dir, now, order)))
    decreases order
  {
    hide PointOf, Superseded, BasesOf;
    if order == [] {
      assert BasesOf([]) == [];
    } else {
      var rest := order[1..];
      assert forall i :: 0 <= i < |rest| ==> rest[i] == order[i + 1];
      BasesDistinct(t, dir, now, rest);
      if Live(t, dir, now, order[0]) {
        PointBase(t, dir, order[0]);
        var r, tail := PointOf(t, dir, order[0]).value, LiveList(t, dir, now, rest);
        BasesCons(r, tail);
        LiveListSound(t, dir, now, rest);
        NotAmongBases(r.base, tail);
        NoDuplicatesCons(r.base, BasesOf(tail));
      }
    }
  }

  /** How many deletions a run gets through: all of them, unless it is stopped after fewer. */
  function Done(plan: seq<string>, stopAfter: Option<nat>): (k: nat)
    ensures k <= |plan|
  {
    if stopAfter.Some? && stopAfter.value < |plan| then stopAfter.value else |plan|
  }

  class Repository {
    var files: Directory

    constructor (dir: Directory)
      ensures files == dir
    {
      files := dir;
    }

    /** The scanning loop: unreadable and refused points are skipped, future ones too. */
    method Scan(t: Tools, now: nat, order: seq<string>) returns (r: Result<seq<Record>>)
      requires ToSet(order) == Bases(files)
      ensures Escapes(t, files) ==> r == Err(Escaped)
      ensures !Escapes(t, files) ==> r == Ok(LiveList(t, files, now, order))
    {
      hide PointOf, Bases;
      var records: seq<Record> := [];
      var i := 0;
      while i < |order|
        invariant 0 <= i <= |order|
        invariant forall j :: 0 <= j < i ==> PointOf(t, files, order[j]) != Err(Escaped)
        invariant records == LiveList(t, files, now, order[..i])
      {
        assert order[i] in Bases(files);
        var point := PointOf(t, files, order[i]);
        if point == Err(Escaped) {
          return Err(Escaped);
        }
        assert order[..i + 1] == order[..i] + [order[i]];
        LiveListSplit(t, files, now, order[..i], [order[i]]);
        if point.Ok? && point.value.created <= now {
          records := records + [point.value];
        }
        i := i + 1;
      }
      assert order[..i] == order;
      r := Ok(records);
    }

    /** Unlinking one point's files, unless the injected failure comes first. */
    method DeletePoint(base: string, ghost dir: Directory, ghost plan: seq<string>, start: nat,
                       stopAfter: Option<nat>) returns (stopped: bool, count: nat)
      requires start + 3 <= |plan| && forall j :: 0 <= j < 3 ==> plan[start + j] == Nth(base, j)
      requires forall k :: 0 <= k < |plan| ==> IsFile(dir - ToSet(plan[..k]), plan[k])
      requires files == dir - ToSet(plan[..start]) && (stopAfter.Some? ==> start <= stopAfter.value)
      modifies this
      ensures start <= count <= start + 3 && files == dir - ToSet(plan[..count])
      ensures stopped ==> stopAfter == Some(count) && count < |plan|
      ensures !stopped ==> count == start + 3 && (stopAfter.Some? ==> count <= stopAfter.value)
    {
      hide Nth, IsFile;
      var j: nat := 0;
      while j < 3
        invariant 0 <= j <= 3
        invariant files == dir - ToSet(plan[..start + j])
        invariant stopAfter.Some? ==> start + j <= stopAfter.value
      {
        var name := Nth(base, j);
        assert name == plan[start + j];
        assert IsFile(files, name);  // so the safety check before the unlink never fires
        if stopAfter.Some? && start + j + 1 > stopAfter.value {
          return true, start + j;
        }
        OneMore(plan, start + j);
        files := files - {name};
        j := j + 1;
      }
      return false, start + 3;
    }

    /**
     * The deletion loop. Each point the rule does not keep loses its manifest, archive and
     * checksum in that order; the injected failure stops the run before one unlink too many.
     */
    method Delete(t: Tools, now: nat, order: seq<string>, records: seq<Record>, newest: map<Identity, Record>,
                  stopAfter: Option<nat>) returns (r: Result<()>)
      requires NoDuplicates(order) && ToSet(order) == Bases(files)
      requires records == LiveList(t, files, now, order) && NewestSoFar(newest, records)
      modifies this
      ensures var plan := Plan(DoomedList(t, old(files), now, order));
        && files == old(files) - ToSet(plan[..Done(plan, stopAfter)])
        && r == if Done(plan, stopAfter) == |plan| then Ok(()) else Err(Refused)
    {
      hide Plan, DoomedList, LiveList, Nth, Bases, BasesOf, NoDuplicates, NewestSoFar, Kept, DoomedBefore, DoomedOf,
           IsFile, ToSet;
      ghost var dir := files;
      ghost var plan := Plan(DoomedOf(t, dir, now, records));
      PlanReady(t, dir, now, order, records);
      Ends(t, dir, now, records);
      var count: nat := 0;
      var i := 0;
      while i < |records|
        invariant 0 <= i <= |records|
        invariant count == 3 * DoomedBefore(t, dir, now, records, i) <= |plan|
        invariant files == dir - ToSet(plan[..count])
        invariant stopAfter.Some? ==> count <= stopAfter.value
      {
        Turn(t, dir, now, order, records, newest, i);
        if !Kept(newest, now, records[i]) {
          var stopped;
          stopped, count := DeletePoint(records[i].base, dir, plan, count, stopAfter);
          if stopped {
            return Err(Refused);
          }
        }
        i := i + 1;
      }
      r := Ok(());
    }
  }

  lemma PlanReady(t: Tools, dir: Directory, now: nat, order: seq<string>, records: seq<Record>)
    requires NoDuplicates(order) && records == LiveList(t, dir, now, order)
    ensures DoomedOf(t, dir, now, records) == DoomedList(t, dir, now, order)
    ensures var plan := Plan(DoomedOf(t, dir, now, records));
      && (forall k :: 0 <= k < |plan| ==> IsFile(dir - ToSet(plan[..k]), plan[k]))
      && dir - ToSet(plan[..0]) == dir
  {
    DoomedAmongLive(t, dir, now, order);
    hide Plan, DoomedList, LiveList, BasesOf, NoDuplicates, IsFile;
    var plan := Plan(DoomedList(t, dir, now, order));
    forall k | 0 <= k < |plan|
      ensures IsFile(dir - ToSet(plan[..k]), plan[k])
    {
      PlanFiles(t, dir, now, order, k);
    }
  }

  ghost function DoomedOf(t: Tools, dir: Directory, now: nat, records: seq<Record>): seq<string> {
    DoomedList(t, dir, now, BasesOf(records))
  }

  /** How many of the first i records are doomed. */
  ghost function DoomedBefore(t: Tools, dir: Directory, now: nat, records: seq<Record>, i: nat): nat
    requires i <= |records|
  {
    |DoomedList(t, dir, now, BasesOf(records)[..i])|
  }

  lemma Ends(t: Tools, dir: Directory, now: nat, records: seq<Record>)
    ensures DoomedBefore(t, dir, now, records, 0) == 0
    ensures |DoomedOf(t, dir, now, records)| == DoomedBefore(t, dir, now, records, |records|)
  {
    hide Doomed, BasesOf;
    var bases := BasesOf(records);
    assert bases[..0] == [] && bases[..|records|] == bases;
  }

  lemma NextBefore(t: Tools, dir: Directory, now: nat, records: seq<Record>, i: nat)
    requires i < |records|
    ensures Doomed(t, dir, now, records[i].base) ==>
      && DoomedBefore(t, dir, now, records, i + 1) == DoomedBefore(t, dir, now, records, i) + 1
      && DoomedBefore(t, dir, now, records, i) < |DoomedOf(t, dir, now, records)|
      && DoomedOf(t, dir, now, records)[DoomedBefore(t, dir, now, records, i)] == records[i].base
    ensures !Doomed(t, dir, now, records[i].base) ==>
      DoomedBefore(t, dir, now, records, i + 1) == DoomedBefore(t, dir, now, records, i)
  {
    NextDoomed(t, dir, now, BasesOf(records), i);
    hide DoomedList, Doomed;
  }

  lemma PlanTriple(doomed: seq<string>, q: nat)
    requires q < |doomed|
    ensures 3 * q + 3 <= |Plan(doomed)| && forall j :: 0 <= j < 3 ==> Plan(doomed)[3 * q + j] == Nth(doomed[q], j)
  {
    PlanNth(doomed, q, 0);
    PlanNth(doomed, q, 1);
    PlanNth(doomed, q, 2);
    hide Plan, Nth;
  }

  lemma SourceSeen(newest: map<Identity, Record>, records: seq<Record>, i: nat)
    requires NewestSoFar(newest, records) && i < |records|
    ensures records[i] in records && records[i].source in newest
  {
  }

  /** One turn of the deletion loop: the rule, and where the point's files stand in the plan. */
  lemma Turn(t: Tools, dir: Directory, now: nat, order: seq<string>, records: seq<Record>,
             newest: map<Identity, Record>, i: nat)
    requires NoDuplicates(order) && ToSet(order) == Bases(dir)
    requires records == LiveList(t, dir, now, order) && NewestSoFar(newest, records) && i < |records|
    ensures records[i].source in newest
    ensures Kept(newest, now, records[i]) ==>
      DoomedBefore(t, dir, now, records, i + 1) == DoomedBefore(t, dir, now, records, i)
    ensures !Kept(newest, now, records[i]) ==>
      var q, plan := DoomedBefore(t, dir, now, records, i), Plan(DoomedOf(t, dir, now, records));
      && DoomedBefore(t, dir, now, records, i + 1) == q + 1 && 3 * q + 3 <= |plan|
      && forall j :: 0 <= j < 3 ==> plan[3 * q + j] == Nth(records[i].base, j)
  {
    hide *;
    SourceSeen(newest, records, i);
    KeepRule(t, dir, now, order, newest, records[i]);
    NextBefore(t, dir, now, records, i);
    if Doomed(t, dir, now, records[i].base) {
      PlanTriple(DoomedOf(t, dir, now, records), DoomedBefore(t, dir, now, records, i));
    }
  }

  /** A whole retention run: nothing at all when a manifest cannot be read, nothing but a report when not applied. */
  method RunRetention(t: Tools, repository: Repository, now: nat, apply: bool, order: seq<string>,
                      stopAfter: Option<nat>) returns (r: Result<()>)
    requires NoDuplicates(order) && ToSet(order) == Bases(repository.files)
    modifies repository
    ensures Escapes(t, old(repository.files)) ==> r == Err(Escaped) && repository.files == old(repository.files)
    ensures !Escapes(t, old(repository.files)) && !apply ==> r.Ok? && repository.files == old(repository.files)
    ensures !Escapes(t, old(repository.files)) && apply ==>
      var plan := Plan(DoomedList(t, old(repository.files), now, order));
      && repository.files == old(repository.files) - ToSet(plan[..Done(plan, stopAfter)])
      && r == if Done(plan, stopAfter) == |plan| then Ok(()) else Err(Refused)
    ensures r.Ok? && apply ==> repository.files == Retained(t, old(repository.files), now)
    ensures KeepsNewest(t, old(repository.files), repository.files, now)
  {
    hide Escapes, Plan, DoomedList, LiveList, PointOf, Bases, BasesOf, NewestSoFar, Retained, ToSet, KeepsNewest;
    ghost var dir := repository.files;
    PrefixKeepsNewest(t, dir, now, order, 0);
    PrefixKeepsNewest(t, dir, now, order, Done(Plan(DoomedList(t, dir, now, order)), stopAfter));
    var records := repository.Scan(t, now, order);
    if records.Err? {
      return Err(records.kind);
    }
    BasesDistinct(t, dir, now, order);
    var newest := PickNewest(records.value);
    if !apply {
      return Ok(());
    }
    r := repository.Delete(t, now, order, records.value, newest, stopAfter);
    ghost var plan := Plan(DoomedList(t, dir, now, order));
    assert plan[..|plan|] == plan;
    FullPlanRetains(t, dir, now, order);
  }

  lemma OneMore(plan: seq<string>, k: nat)
    requires k < |plan|
    ensures ToSet(plan[..k + 1]) == ToSet(plan[..k]) + {plan[k]}
  {
    assert plan[..k + 1] == plan[..k] + [plan[k]];
  }

  lemma NextDoomed(t: Tools, dir: Directory, now: nat, bases: seq<string>, i: nat)
    requires i < |bases|
    ensures var q := |DoomedList(t, dir, now, bases[..i])|;
      if Doomed(t, dir, now, bases[i]) then
        && |DoomedList(t, dir, now, bases[..i + 1])| == q + 1
        && q < |DoomedList(t, dir, now, bases)| && DoomedList(t, dir, now, bases)[q] == bases[i]
      else |DoomedList(t, dir, now, bases[..i + 1])| == q
  {
    hide Doomed;
    assert bases[..i + 1] == bases[..i] + [bases[i]];
    assert bases == bases[..i + 1] + bases[i + 1..];
    DoomedListSplit(t, dir, now, bases[..i], [bases[i]]);
    DoomedListSplit(t, dir, now, bases[..i + 1], bases[i + 1..]);
    assert [bases[i]][1..] == [];
  }
}
