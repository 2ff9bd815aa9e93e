/** What retention keeps and deletes, in the terms of the manifests: creation time, class, source and name. */
module Survivors {
  import opened Common
  import opened Manifests
  import opened RecoveryPoint
  import opened Calendar
  import opened Instants
  import opened Retention
  import opened VerifiedPoints

  /** A point that verifies, with its manifest and its creation time. */
  ghost predicate Point(t: Tools, dir: Directory, b: string, m: Json, created: nat) {
    VerifyOuter(t, dir, b) == Ok(m) && Reads(t, Part(m, CreatedUtc), created)
  }

  predicate SameSource(m: Json, n: Json) {
    && Part(Part(m, Source), InstanceSlug) == Part(Part(n, Source), InstanceSlug)
    && Part(Part(m, Source), DatabaseName) == Part(Part(n, Source), DatabaseName)
    && Part(Part(m, Source), EnvironmentId) == Part(Part(n, Source), EnvironmentId)
  }

  /** Created later, or at the same moment under a manifest name that sorts later. */
  predicate Later(b: string, created: nat, than: string, thanCreated: nat) {
    || thanCreated < created
    || (created == thanCreated && TextLess(than + ".manifest.json", b + ".manifest.json"))
  }

  /** The same day a year later, or 28 February for a 29th, at the same time of day. */
  predicate YearLater(t: nat, r: nat) {
    var d, e := DateOf(t), DateOf(r);
    && e.year == d.year + 1 && e.month == d.month
    && (e.day == d.day || (d.month == 2 && d.day == 29 && e.day == 28))
    && TimeOfDay(r) == TimeOfDay(t)
  }

  const DAYS_7 := 604_800_000_000
  const DAYS_30 := 2_592_000_000_000

  /** Kept for a week, for thirty days, or for a year of the calendar. */
  ghost predicate Expired(class_: Json, created: nat, now: nat) {
    || (class_ == Text("intraday") && created + DAYS_7 < now)
    || (class_ == Text("daily") && created + DAYS_30 < now)
    || (class_ == Text("monthly") && exists r: nat :: YearLater(created, r) && r < now)
  }

  // ----- records and manifests -----

  lemma RecordOfPoint(t: Tools, dir: Directory, b: string, m: Json, created: nat)
    requires Point(t, dir, b, m, created)
    ensures PointOf(t, dir, b).Ok? && b in Bases(dir)
    ensures var r := PointOf(t, dir, b).value;
      && r.base == b && r.created == created && r.pointClass == Part(m, PointClass)
      && r.source == (Part(Part(m, Source), InstanceSlug), Part(Part(m, Source), DatabaseName),
                      Part(Part(m, Source), EnvironmentId))
  {
    VerifiedIsComplete(t, dir, b);
    ReadsExactly(t, Part(m, CreatedUtc), created);
    hide VerifyOuter, Reads;
  }

  lemma AcceptedIsDated(t: Tools, m: Json)
    requires CheckManifest(t, m, true) == Ok(m)
    ensures Stamp(t, Part(m, CreatedUtc)).Some?
  {
    CommonPartsOf(t, m);
    hide ValidBody, CheckManifest;
  }

  lemma CommonPartsOf(t: Tools, m: Json)
    requires CheckManifest(t, m, true) == Ok(m)
    ensures ValidBody(t, Part(m, CreatedUtc), Part(m, Source), Part(m, Encryption), Part(m, Consistency),
                      Part(m, Components))
  {
    InnerParts(m);
    hide ValidBody, ValidArchive, Classes;
  }

  /** Every record comes from a point. */
  lemma PointOfRecord(t: Tools, dir: Directory, b: string) returns (m: Json)
    requires PointOf(t, dir, b).Ok?
    ensures Point(t, dir, b, m, PointOf(t, dir, b).value.created)
  {
    m := VerifyOuter(t, dir, b).value;
    AcceptedIsDated(t, m);
    ReadsExactly(t, Part(m, CreatedUtc), Stamp(t, Part(m, CreatedUtc)).value);
    hide VerifyOuter, CheckManifest, Stamp, Reads;
  }

  lemma NewerIsLater(a: Record, b: Record)
    ensures Newer(a, b) <==> Later(a.base, a.created, b.base, b.created)
  {
  }

  lemma SourcesAlike(m: Json, n: Json)
    ensures SameSource(m, n)
            <==> (Part(Part(m, Source), InstanceSlug), Part(Part(m, Source), DatabaseName),
                  Part(Part(m, Source), EnvironmentId))
                 == (Part(Part(n, Source), InstanceSlug), Part(Part(n, Source), DatabaseName),
                     Part(Part(n, Source), EnvironmentId))
  {
    hide Part;
  }

  lemma PointsAlike(t: Tools, dir: Directory, b: string, m: Json, c: nat, k: string, mk: Json, ck: nat)
    requires Point(t, dir, b, m, c) && Point(t, dir, k, mk, ck)
    ensures PointOf(t, dir, b).Ok? && PointOf(t, dir, k).Ok?
    ensures PointOf(t, dir, b).value.source == PointOf(t, dir, k).value.source <==> SameSource(m, mk)
    ensures Newer(PointOf(t, dir, k).value, PointOf(t, dir, b).value) <==> Later(k, ck, b, c)
  {
    RecordOfPoint(t, dir, b, m, c);
    RecordOfPoint(t, dir, k, mk, ck);
    NewerIsLater(PointOf(t, dir, k).value, PointOf(t, dir, b).value);
    SourcesAlike(m, mk);
    hide *;
  }

  // ----- the newest point of a source -----

  /** A point that none of the points of its source, future ones aside, is later than. */
  ghost predicate Newest(t: Tools, dir: Directory, now: nat, k: string, mk: Json, ck: nat) {
    && Point(t, dir, k, mk, ck) && ck <= now
    && forall b, m, c: nat :: Point(t, dir, b, m, c) && c <= now && SameSource(m, mk) && b != k ==> Later(k, ck, b, c)
  }

  /** Every source that had a verified point, not dated in the future, has its newest one still. */
  ghost predicate KeepsNewest(t: Tools, before: Directory, after: Directory, now: nat) {
    forall b, m, c: nat :: Point(t, before, b, m, c) && c <= now ==>
      exists k, mk, ck: nat :: Newest(t, before, now, k, mk, ck) && SameSource(m, mk) && Point(t, after, k, mk, ck)
  }

  lemma NotSupersededIsNewest(t: Tools, dir: Directory, now: nat, k: string, mk: Json, ck: nat)
    requires Point(t, dir, k, mk, ck) && ck <= now
    ensures Live(t, dir, now, k) && PointOf(t, dir, k).Ok?
    ensures !Superseded(t, dir, now, PointOf(t, dir, k).value) <==> Newest(t, dir, now, k, mk, ck)
  {
    RecordOfPoint(t, dir, k, mk, ck);
    var r := PointOf(t, dir, k).value;
    hide PointOf, Point, Bases, SameSource, Later, Newer;
    if !Superseded(t, dir, now, r) {
      forall b, m, c: nat | Point(t, dir, b, m, c) && c <= now && SameSource(m, mk) && b != k
        ensures Later(k, ck, b, c)
      {
        NotOutranked(t, dir, now, k, mk, ck, b, m, c);
      }
    } else {
      var b :| b in Bases(dir) && Live(t, dir, now, b) && Outranks(PointOf(t, dir, b).value, r);
      var m := PointOfRecord(t, dir, b);
      OutrankedIsNotNewest(t, dir, now, k, mk, ck, b, m);
    }
  }

  lemma SameSourceSymmetric(m: Json, n: Json)
    ensures SameSource(m, n) <==> SameSource(n, m)
  {
  }

  lemma NotOutranked(t: Tools, dir: Directory, now: nat, k: string, mk: Json, ck: nat, b: string, m: Json, c: nat)
    requires Point(t, dir, k, mk, ck) && PointOf(t, dir, k).Ok?
    requires !Superseded(t, dir, now, PointOf(t, dir, k).value)
    requires Point(t, dir, b, m, c) && c <= now && SameSource(m, mk) && b != k
    ensures Later(k, ck, b, c)
  {
    RecordOfPoint(t, dir, b, m, c);
    RecordOfPoint(t, dir, k, mk, ck);
    PointsAlike(t, dir, b, m, c, k, mk, ck);
    var r, q := PointOf(t, dir, k).value, PointOf(t, dir, b).value;
    hide PointOf, Point, Bases, SameSource, Later, Newer, Part;
    NewerTotal(r, q);
  }

  lemma OutrankedIsNotNewest(t: Tools, dir: Directory, now: nat, k: string, mk: Json, ck: nat, b: string, m: Json)
    requires Point(t, dir, k, mk, ck) && PointOf(t, dir, k).Ok? && PointOf(t, dir, b).Ok?
    requires Live(t, dir, now, b) && Outranks(PointOf(t, dir, b).value, PointOf(t, dir, k).value)
    requires Point(t, dir, b, m, PointOf(t, dir, b).value.created)
    ensures !Newest(t, dir, now, k, mk, ck)
  {
    var c := PointOf(t, dir, b).value.created;
    PointsAlike(t, dir, k, mk, ck, b, m, c);
    PointsAlike(t, dir, b, m, c, k, mk, ck);
    NewerTotal(PointOf(t, dir, b).value, PointOf(t, dir, k).value);
    SameSourceSymmetric(m, mk);
    hide PointOf, Point, Bases, SameSource, Later, Newer;
  }

  /** A point the newest of whose source is kept. */
  lemma NewestOfSource(t: Tools, dir: Directory, now: nat, b: string, m: Json, c: nat)
    returns (k: string, mk: Json, ck: nat)
    requires Point(t, dir, b, m, c) && c <= now
    ensures Newest(t, dir, now, k, mk, ck) && SameSource(m, mk) && k !in DoomedSet(t, dir, now)
  {
    RecordOfPoint(t, dir, b, m, c);
    hide PointOf, Point, Bases, SameSource, Newest, DoomedSet, Superseded;
    var top := NewestSurvives(t, dir, now, b);
    k, ck := top.base, top.created;
    mk := PointOfRecord(t, dir, k);
    NotSupersededIsNewest(t, dir, now, k, mk, ck);
    PointsAlike(t, dir, b, m, c, k, mk, ck);
  }

  lemma StillPoint(t: Tools, dir: Directory, points: set<string>, files: set<string>, k: string, mk: Json, ck: nat)
    requires Deletes(t, dir, points, files) && k !in points && Point(t, dir, k, mk, ck)
    ensures Point(t, dir - files, k, mk, ck)
  {
    VerdictAfterDelete(t, dir, points, files, k);
    hide VerifyOuter, Reads, Deletes;
  }

  /** Deleting doomed points, wholly or in part, keeps the newest of every source. */
  lemma DeletingKeepsNewest(t: Tools, dir: Directory, points: set<string>, files: set<string>, now: nat)
    requires points <= DoomedSet(t, dir, now) && Deletes(t, dir, points, files)
    ensures KeepsNewest(t, dir, dir - files, now)
  {
    hide Deletes, DoomedSet, Point, Newest, SameSource;
    forall b, m, c: nat | Point(t, dir, b, m, c) && c <= now
      ensures exists k, mk, ck: nat ::
        Newest(t, dir, now, k, mk, ck) && SameSource(m, mk) && Point(t, dir - files, k, mk, ck)
    {
      var k, mk, ck := NewestOfSource(t, dir, now, b, m, c);
      NewestIsPoint(t, dir, now, k, mk, ck);
      StillPoint(t, dir, points, files, k, mk, ck);
    }
  }

  lemma NewestIsPoint(t: Tools, dir: Directory, now: nat, k: string, mk: Json, ck: nat)
    requires Newest(t, dir, now, k, mk, ck)
    ensures Point(t, dir, k, mk, ck) && ck <= now
  {
    hide Point;
  }

  /** A run leaves the newest verified point of every source. */
  lemma RunKeepsNewest(t: Tools, dir: Directory, now: nat)
    ensures KeepsNewest(t, dir, Retained(t, dir, now), now)
  {
    var points := DoomedSet(t, dir, now);
    DoomedDeletes(t, dir, now, points);
    hide DoomedSet, Deletes, KeepsNewest;
    DeletingKeepsNewest(t, dir, points, AllFiles(points), now);
  }

  // ----- exactly what goes -----

  lemma YearLaterIsShift(t: nat, r: nat)
    ensures YearLater(t, r) <==> r == ShiftMonths(t, 12)
  {
    var d, e := DateOf(t), DateOf(r);
    AddMonthsShifts(d, 12);
    var f := AddMonths(d, 12);
    YearOf(d);
    AtRoundTrip(f, TimeOfDay(t));
    if YearLater(t, r) {
      SameDayNextYear(d, e);
      assert e == f;
      WholeInstant(r);
    }
    hide Ordinal, TimeOfDay, AddMonths, At, DaysInMonth;
  }

  lemma WholeInstant(r: nat)
    ensures r == At(DateOf(r), TimeOfDay(r))
  {
    assert r == (r / DAY) * DAY + r % DAY;
  }

  lemma YearOf(d: Date)
    requires Valid(d)
    ensures var f := AddMonths(d, 12);
      && f.year == d.year + 1 && f.month == d.month
      && f.day == (if d.month == 2 && d.day == 29 then 28 else d.day)
  {
    LeapYearsApart(d.year);
  }

  lemma LeapYearsApart(year: int)
    ensures IsLeap(year) ==> !IsLeap(year + 1)
  {
  }

  lemma SameDayNextYear(d: Date, e: Date)
    requires Valid(d) && Valid(e) && e.year == d.year + 1 && e.month == d.month
    requires e.day == d.day || (d.month == 2 && d.day == 29 && e.day == 28)
    ensures e == AddMonths(d, 12)
  {
    YearOf(d);
    LeapYearsApart(d.year);
  }

  lemma ExpiredExactly(class_: Json, created: nat, now: nat)
    requires class_ == Text("intraday") || class_ == Text("daily") || class_ == Text("monthly")
    ensures Deadline(created, class_) < now <==> Expired(class_, created, now)
  {
    assert |"intraday"| == 8 && |"daily"| == 5 && |"monthly"| == 7;
    YearAhead(created);
    var r := ShiftMonths(created, 12);
    assert 0 <= r;
    YearLaterIsShift(created, r);
    forall q: nat | YearLater(created, q)
      ensures q == r
    {
      YearLaterIsShift(created, q);
    }
    hide ShiftMonths, YearLater;
  }

  lemma ClassOfPoint(t: Tools, dir: Directory, b: string, m: Json, c: nat)
    requires Point(t, dir, b, m, c)
    ensures var k := Part(m, PointClass); k == Text("intraday") || k == Text("daily") || k == Text("monthly")
  {
    VerifiedExactly(t, dir, b, m);
    hide VerifyOuter, Agrees, NamesSource, NamesEncryption, NamesWindow, NamesComponents, NamesArchive, Part;
  }

  /** Not dated in the future, expired for its class, and a later point of the same source verifies. */
  ghost predicate Goes(t: Tools, dir: Directory, now: nat, b: string, m: Json, c: nat) {
    && Point(t, dir, b, m, c) && c <= now
    && Expired(Part(m, PointClass), c, now) && !Newest(t, dir, now, b, m, c)
  }

  /** A run takes a verified point's manifest exactly when the point is expired and not its source's newest. */
  lemma DeletedExactly(t: Tools, dir: Directory, now: nat, b: string, m: Json, c: nat)
    requires Point(t, dir, b, m, c)
    ensures b + ".manifest.json" !in Retained(t, dir, now) <==> Goes(t, dir, now, b, m, c)
  {
    RecordOfPoint(t, dir, b, m, c);
    ClassOfPoint(t, dir, b, m, c);
    ExpiredExactly(Part(m, PointClass), c, now);
    if c <= now {
      NotSupersededIsNewest(t, dir, now, b, m, c);
    }
    GoneExactly(t, dir, now, b);
    hide PointOf, Point, Newest, Superseded, Expired, Deadline, Retained, Part;
  }

  lemma GoneExactly(t: Tools, dir: Directory, now: nat, b: string)
    requires b in Bases(dir)
    ensures b + ".manifest.json" !in Retained(t, dir, now) <==> Doomed(t, dir, now, b)
  {
    var points := DoomedSet(t, dir, now);
    DoomedDeletes(t, dir, now, points);
    hide Doomed;
    if b in points {
      OwnManifest(b);
    } else {
      KeptFiles(t, dir, points, AllFiles(points), b);
    }
  }

  lemma OwnManifest(b: string)
    ensures ManifestFile(b) in FilesOf(b)
  {
  }

  /** The three files of a point. */
  predicate FileOf(n: string, b: string) { n == b || n == b + ".manifest.json" || n == b + ".sha256" }

  lemma GoneIsPoint(t: Tools, dir: Directory, now: nat, b: string) returns (m: Json, c: nat)
    requires Doomed(t, dir, now, b)
    ensures Goes(t, dir, now, b, m, c)
  {
    m := PointOfRecord(t, dir, b);
    c := PointOf(t, dir, b).value.created;
    DeletedExactly(t, dir, now, b, m, c);
    GoneExactly(t, dir, now, b);
    hide Point, Goes, Retained, Deadline, Superseded;
  }

  lemma GoesIsGone(t: Tools, dir: Directory, now: nat, b: string, m: Json, c: nat)
    requires Goes(t, dir, now, b, m, c)
    ensures Doomed(t, dir, now, b)
  {
    RecordOfPoint(t, dir, b, m, c);
    DeletedExactly(t, dir, now, b, m, c);
    GoneExactly(t, dir, now, b);
    hide Point, Newest, Expired, Retained, Deadline, Superseded, PointOf, Part;
  }

  /** Whatever goes belongs to such a point, and all three of its files go. */
  lemma NothingElseDeleted(t: Tools, dir: Directory, now: nat, n: string)
    requires n in dir
    ensures n !in Retained(t, dir, now)
            <==> exists b, m, c: nat :: Goes(t, dir, now, b, m, c) && FileOf(n, b)
  {
    hide Doomed, Goes, PointOf, Retained;
    if n !in Retained(t, dir, now) {
      var b := GoneFile(t, dir, now, n);
      var m, c := GoneIsPoint(t, dir, now, b);
      assert Goes(t, dir, now, b, m, c) && FileOf(n, b);
    } else {
      forall b, m, c: nat | Goes(t, dir, now, b, m, c)
        ensures !FileOf(n, b)
      {
        GoesIsGone(t, dir, now, b, m, c);
        if FileOf(n, b) {
          FilesGo(t, dir, now, b, n);
        }
      }
    }
  }

  lemma GoneFile(t: Tools, dir: Directory, now: nat, n: string) returns (b: string)
    requires n in dir && n !in Retained(t, dir, now)
    ensures Doomed(t, dir, now, b) && FileOf(n, b)
  {
    hide Doomed;
    b :| b in DoomedSet(t, dir, now) && n in FilesOf(b);
  }

  lemma FilesGo(t: Tools, dir: Directory, now: nat, b: string, n: string)
    requires Doomed(t, dir, now, b) && FileOf(n, b)
    ensures n !in Retained(t, dir, now)
  {
    hide Doomed;
    assert b in DoomedSet(t, dir, now) && n in FilesOf(b);
    hide DoomedSet, FilesOf;
    assert n in AllFiles(DoomedSet(t, dir, now));
  }
}
