/** What verification and unpacking make of a packed recovery point. */
module RoundTrip {
  import opened Common
  import opened Manifests
  import opened RecoveryPoint
  import opened Publication
  import opened Packing
  import opened Unpacking
  import Words

  /** The write-stop window ends no later than the recorded creation time. */
  predicate CreatedAfterWindow(t: Tools, args: Arguments) {
    var created, end := Stamp(t, Text(Created(args))), Stamp(t, Text(QuiesceEndOf(args)));
    created.Some? && end.Some? && end.value <= created.value
  }

  /** The three conditions pack does not check but verification needs. */
  predicate Verifiable(t: Tools, args: Arguments) {
    CreatedAfterWindow(t, args) && EndsWith(args.archive, ".tar.age") && NoSpace(args.archive)
  }

  // ----- sorting keeps components acceptable -----

  lemma {:induction false} SortedDistinct(s: seq<Component>)
    requires Sorted(s)
    ensures NoDuplicates(Names(s))
  {
    if s != [] {
      SortedHead(s);
      SortedDistinct(s[1..]);
      forall i, j | 0 <= i < j < |s|
        ensures s[i].name != s[j].name
      {
        if i == 0 {
          assert s[j] in s[1..];
          TextLessAsymmetric(s[0].name, s[j].name);
        } else {
          assert Names(s[1..])[i - 1] == s[i].name && Names(s[1..])[j - 1] == s[j].name;
        }
      }
    }
  }

  lemma SameNames(a: seq<Component>, b: seq<Component>)
    requires forall c :: c in a ==> c in b
    ensures ToSet(Names(a)) <= ToSet(Names(b))
  {
    forall n | n in Names(a)
      ensures n in Names(b)
    {
      var i :| 0 <= i < |a| && Names(a)[i] == n;
      assert a[i] in b;
      var j :| 0 <= j < |b| && b[j] == a[i];
      assert Names(b)[j] == n;
    }
  }

  lemma AcceptableNotEmpty(s: seq<Component>)
    requires Complete(ToSet(Names(s)))
    ensures s != []
  {
    assert "db.dump" in Required();
    assert "db.dump" in Names(s);
  }

  lemma SortedNames(s: seq<Component>)
    requires NoDuplicates(Names(s))
    ensures NoDuplicates(Names(Sort(s))) && ToSet(Names(Sort(s))) == ToSet(Names(s))
    ensures forall c :: c in s <==> c in Sort(s)
  {
    SortPermutes(s);
    SortSorts(s);
    SameElements(s, Sort(s));
    hide Sort;
    SortedDistinct(Sort(s));
    SameNames(s, Sort(s));
    SameNames(Sort(s), s);
  }

  lemma SortedSafe(s: seq<Component>, sorted: seq<Component>)
    requires forall i :: 0 <= i < |s| ==> SafeName(s[i].name)
    requires forall c :: c in s <==> c in sorted
    ensures forall i :: 0 <= i < |sorted| ==> SafeName(sorted[i].name)
  {
    hide SafeName;
    forall i | 0 <= i < |sorted|
      ensures SafeName(sorted[i].name)
    {
      assert sorted[i] in s;
      var j :| 0 <= j < |s| && s[j] == sorted[i];
    }
  }

  lemma AcceptableSorted(s: seq<Component>)
    requires Acceptable(s)
    ensures Acceptable(Sort(s)) && Sort(s) != []
  {
    SortedNames(s);
    SortKeepsRegular(s);
    SortedSafe(s, Sort(s));
    AcceptableNotEmpty(Sort(s));
    hide Sort, SafeName, NoDuplicates, Names, Complete, ToSet, AllRegular;
  }

  // ----- the manifest pack writes is the manifest the validator accepts -----

  lemma EntryValid(t: Tools, c: Component)
    requires Lawful(t) && c.source.Regular? && SafeName(c.name) && c.name in Allowed()
    ensures ValidComponent(ComponentEntry(t, c)) && ComponentName(ComponentEntry(t, c)) == c.name
  {
  }

  lemma EntriesValid(t: Tools, s: seq<Component>)
    requires Lawful(t) && Acceptable(s) && s != []
    ensures ValidComponents(List(Entries(t, s)))
  {
    hide ValidComponent, ComponentEntry, ComponentName, Lawful;
    var entries := Entries(t, s);
    forall i | 0 <= i < |entries|
      ensures ValidComponent(entries[i]) && ComponentName(entries[i]) == s[i].name
    {
      assert s[i].name == Names(s)[i];
      EntryValid(t, s[i]);
    }
    assert ComponentNames(entries) == Names(s);
  }

  lemma SourceValid(args: Arguments)
    requires IdentityGiven(args)
    ensures ValidSource(SourceJson(args))
  {
  }

  lemma EncryptionValid(args: Arguments)
    requires IsVersion(args.expectedAge)
    ensures ValidEncryption(EncryptionJson(args))
  {
    hide IsVersion;
  }

  lemma ConsistencyVerdict(t: Tools, args: Arguments)
    requires WindowOrdered(t, args) && Stamp(t, Text(Created(args))).Some?
    ensures ValidConsistency(t, ConsistencyJson(args), Stamp(t, Text(Created(args)))) <==> CreatedAfterWindow(t, args)
  {
    hide Stamp, OrElse;
  }

  lemma BodyVerdict(t: Tools, args: Arguments, entries: seq<Json>)
    requires Buildable(t, args) && ValidComponents(List(entries))
    ensures CreatedAfterWindow(t, args) <==>
            ValidBody(t, Text(Created(args)), SourceJson(args), EncryptionJson(args), ConsistencyJson(args),
                      List(entries))
  {
    SourceValid(args);
    EncryptionValid(args);
    ConsistencyVerdict(t, args);
    hide ValidSource, ValidEncryption, ValidConsistency, ValidComponents, Stamp, CreatedAfterWindow, SourceJson,
         EncryptionJson, ConsistencyJson, Created, IdentityGiven, WindowOrdered, IsVersion;
  }

  lemma ManifestEntries(t: Tools, args: Arguments, entries: seq<Json>)
    ensures var m := ManifestFields(t, args, entries);
      && m.Keys == COMMON_KEYS
      && m[SchemaVersion] == Int(1) && m[FormatName] == Text(FORMAT) && m[CreatedUtc] == Text(Created(args))
      && m[PointClass] == Text(args.pointClass) && m[Source] == SourceJson(args)
      && m[Encryption] == EncryptionJson(args) && m[Consistency] == ConsistencyJson(args)
      && m[Components] == List(entries)
  {
    hide Created, SourceJson, EncryptionJson, ConsistencyJson;
  }

  lemma StagedVerdict(t: Tools, args: Arguments, entries: seq<Json>)
    requires Buildable(t, args) && ValidComponents(List(entries))
    ensures ManifestFields(t, args, entries).Keys == COMMON_KEYS
    ensures CommonVerdict(t, ManifestFields(t, args, entries))
            == if CreatedAfterWindow(t, args) then None else Some(Refused)
  {
    BodyVerdict(t, args, entries);
    ManifestEntries(t, args, entries);
    hide ManifestFields, ValidBody, ValidComponents, Stamp, CreatedAfterWindow, SourceJson, EncryptionJson,
         ConsistencyJson, Created, IdentityGiven, WindowOrdered, IsVersion;
  }

  lemma ArchiveEntryVerdict(t: Tools, archive: string, cipher: string)
    requires Lawful(t) && SafeName(archive) && cipher != ""
    ensures ValidArchive(ArchiveJson(t, archive, cipher)) <==> EndsWith(archive, ".tar.age")
    ensures EndsWith(archive, ".tar.age") ==> ArchiveMatches(t, ArchiveJson(t, archive, cipher), archive, cipher)
  {
    hide SafeName, EndsWith;
  }

  function OuterJson(t: Tools, args: Arguments, entries: seq<Json>, cipher: string): Json {
    Object(ManifestFields(t, args, entries)[EncryptedArchive := ArchiveJson(t, args.archive, cipher)])
  }

  lemma OuterEntries(t: Tools, args: Arguments, entries: seq<Json>, cipher: string)
    ensures var outer := OuterJson(t, args, entries, cipher);
      && HasKeys(outer, COMMON_KEYS + {EncryptedArchive})
      && outer.fields[EncryptedArchive] == ArchiveJson(t, args.archive, cipher)
      && Inner(outer) == Object(ManifestFields(t, args, entries))
      && outer.fields[Components] == List(entries)
  {
    ManifestEntries(t, args, entries);
    var m := ManifestFields(t, args, entries);
    hide ManifestFields, ArchiveJson;
    assert m[EncryptedArchive := ArchiveJson(t, args.archive, cipher)] - {EncryptedArchive} == m;
  }

  /** Of the outer manifest pack writes, the validator objects to the creation time and the archive suffix only. */
  lemma OuterVerdict(t: Tools, args: Arguments, entries: seq<Json>, cipher: string)
    requires Lawful(t) && Buildable(t, args) && ValidComponents(List(entries))
    requires SafeName(args.archive) && cipher != ""
    ensures CheckManifest(t, OuterJson(t, args, entries, cipher), true)
            == if CreatedAfterWindow(t, args) && EndsWith(args.archive, ".tar.age")
               then Ok(OuterJson(t, args, entries, cipher)) else Err(Refused)
  {
    OuterEntries(t, args, entries, cipher);
    StagedVerdict(t, args, entries);
    ArchiveEntryVerdict(t, args.archive, cipher);
    hide Lawful, Buildable, ValidComponents, SafeName, EndsWith, OuterJson, CommonVerdict, ManifestFields,
         CreatedAfterWindow, ValidArchive, ArchiveJson, Inner;
  }

  // ----- what the published directory holds -----

  lemma PointFresh(t: Tools, dir: Directory, archive: string, staged: Staged)
    requires Vacant(dir, archive)
    ensures Fresh(dir, PointItems(t, archive, staged))
  {
    var items := PointItems(t, archive, staged);
    assert |ManifestFile(archive)| == |archive| + 14 && |ChecksumFile(archive)| == |archive| + 7;
    assert NamesOf(items) == [archive, ManifestFile(archive), ChecksumFile(archive)];
  }

  lemma PointContents(t: Tools, dir: Directory, archive: string, staged: Staged)
    requires Vacant(dir, archive)
    ensures var after := Placed(dir, PointItems(t, archive, staged));
      && archive in after && ManifestFile(archive) in after && ChecksumFile(archive) in after
      && after[archive] == Regular(staged.cipher)
      && after[ManifestFile(archive)] == Regular(t.renderJson(staged.outer))
      && after[ChecksumFile(archive)] == Regular(t.sha256(staged.cipher) + "  " + archive + "\n")
  {
    var items := PointItems(t, archive, staged);
    PointFresh(t, dir, archive, staged);
    PlacedContents(dir, items);
    assert NamesOf(items)[0] == archive && NamesOf(items)[1] == ManifestFile(archive);
    assert NamesOf(items)[2] == ChecksumFile(archive);
    hide Placed, NamesOf;
    assert items[0] == Item(archive, staged.cipher);
    assert items[1] == Item(ManifestFile(archive), t.renderJson(staged.outer));
    assert items[2].name == ChecksumFile(archive);
  }

  lemma ChecksumVerdict(t: Tools, archive: string, cipher: string)
    requires Lawful(t) && archive != ""
    ensures ChecksumMatches(t, t.sha256(cipher) + "  " + archive + "\n", archive, cipher) <==> NoSpace(archive)
  {
    var digest := t.sha256(cipher);
    assert IsHex(digest, 64);
    assert forall k :: 0 <= k < |digest| ==> !IsSpace(digest[k]);
    assert NoSpace(digest);
    Words.ChecksumLine(digest, archive);
    hide NoSpace, IsHex;
    var parts := Words.Split(digest + "  " + archive + "\n");
    hide Words.Split;
    if |parts| == 2 && parts[1] == archive && parts[0] == digest {
      assert parts == [digest, archive];
    }
  }

  lemma VerifyByParts(t: Tools, dir: Directory, archive: string, outer: Json, cipher: string, line: string)
    requires IsFile(dir, archive) && dir[archive].data == cipher
    requires IsFile(dir, ManifestFile(archive)) && t.parseJson(dir[ManifestFile(archive)].data) == Some(outer)
    requires IsFile(dir, ChecksumFile(archive)) && dir[ChecksumFile(archive)].data == line
    ensures CheckManifest(t, outer, true).Err? ==> VerifyOuter(t, dir, archive) == CheckManifest(t, outer, true)
    ensures CheckManifest(t, outer, true) == Ok(outer) && outer.Object? && EncryptedArchive in outer.fields
            && ValidArchive(outer.fields[EncryptedArchive])
            && ArchiveMatches(t, outer.fields[EncryptedArchive], archive, cipher)
            ==> VerifyOuter(t, dir, archive)
                == if ChecksumMatches(t, line, archive, cipher) then Ok(outer) else Err(Refused)
  {
    hide CheckManifest, ChecksumMatches, ArchiveMatches, ValidArchive, ManifestFile, ChecksumFile;
  }

  lemma SourceJsonKnown(args: Arguments)
    ensures KnownKeys(SourceJson(args))
  {
    FlatKnown(SourceJson(args));
    hide KnownKeys;
  }

  lemma EncryptionJsonKnown(args: Arguments)
    ensures KnownKeys(EncryptionJson(args))
  {
    FlatKnown(EncryptionJson(args));
    hide KnownKeys;
  }

  lemma ConsistencyJsonKnown(args: Arguments)
    ensures KnownKeys(ConsistencyJson(args))
  {
    FlatKnown(ConsistencyJson(args));
    hide KnownKeys;
  }

  lemma ArchiveJsonKnown(t: Tools, archive: string, cipher: string)
    ensures KnownKeys(ArchiveJson(t, archive, cipher))
  {
    FlatKnown(ArchiveJson(t, archive, cipher));
    hide KnownKeys;
  }

  lemma PartsKnown(args: Arguments)
    ensures KnownKeys(SourceJson(args)) && KnownKeys(EncryptionJson(args)) && KnownKeys(ConsistencyJson(args))
  {
    SourceJsonKnown(args);
    EncryptionJsonKnown(args);
    ConsistencyJsonKnown(args);
    hide KnownKeys, SourceJson, EncryptionJson, ConsistencyJson;
  }

  lemma FieldsKnown(t: Tools, args: Arguments, entries: seq<Json>)
    requires ValidComponents(List(entries))
    ensures COMMON_KEYS <= ManifestFields(t, args, entries).Keys && EachKnown(ManifestFields(t, args, entries))
  {
    ManifestEntries(t, args, entries);
    ComponentsKnown(List(entries));
    PartsKnown(args);
    ScalarKnown(Int(1));
    ScalarKnown(Text(FORMAT));
    ScalarKnown(Text(Created(args)));
    ScalarKnown(Text(args.pointClass));
    hide ManifestFields, KnownKeys, ValidComponents, SourceJson, EncryptionJson, ConsistencyJson, Created;
  }

  lemma AddedKnown(m: map<Field, Json>, archive: Json)
    requires m.Keys == COMMON_KEYS && EachKnown(m) && KnownKeys(archive)
    ensures KnownKeys(Object(m[EncryptedArchive := archive]))
  {
    hide KnownKeys, EachKnown;
    var j := Object(m[EncryptedArchive := archive]);
    forall k | k in j.fields
      ensures !k.Other? && KnownKeys(j.fields[k])
    {
      if k != EncryptedArchive {
        OneKnown(m, k);
      }
    }
    ObjectKnown(j);
  }

  lemma OuterKnown(t: Tools, args: Arguments, entries: seq<Json>, cipher: string)
    requires ValidComponents(List(entries))
    ensures KnownKeys(OuterJson(t, args, entries, cipher))
  {
    ManifestEntries(t, args, entries);
    FieldsKnown(t, args, entries);
    ArchiveJsonKnown(t, args.archive, cipher);
    assert OuterJson(t, args, entries, cipher)
        == Object(ManifestFields(t, args, entries)[EncryptedArchive := ArchiveJson(t, args.archive, cipher)]) by {
      hide ManifestFields, ArchiveJson;
    }
    hide ManifestFields, ArchiveJson, KnownKeys, ValidComponents, EachKnown, OuterJson, Created, SourceJson,
         EncryptionJson, ConsistencyJson;
    AddedKnown(ManifestFields(t, args, entries), ArchiveJson(t, args.archive, cipher));
  }

  lemma OuterReadsBack(t: Tools, args: Arguments, entries: seq<Json>, cipher: string)
    requires Lawful(t) && ValidComponents(List(entries))
    ensures t.parseJson(t.renderJson(OuterJson(t, args, entries, cipher))) == Some(OuterJson(t, args, entries, cipher))
  {
    OuterKnown(t, args, entries, cipher);
    hide OuterJson, KnownKeys, ValidComponents;
  }

  /** Verification of three files that hold what was staged. */
  lemma PlacedPointVerdict(t: Tools, dir: Directory, args: Arguments, entries: seq<Json>, cipher: string)
    requires Lawful(t) && Buildable(t, args) && ValidComponents(List(entries))
    requires SafeName(args.archive) && cipher != "" && Vacant(dir, args.archive)
    ensures var outer := OuterJson(t, args, entries, cipher);
      VerifyOuter(t, Placed(dir, PointItems(t, args.archive, Staged(cipher, outer))), args.archive)
      == if Verifiable(t, args) then Ok(outer) else Err(Refused)
  {
    var outer := OuterJson(t, args, entries, cipher);
    var line := t.sha256(cipher) + "  " + args.archive + "\n";
    OuterVerdict(t, args, entries, cipher);
    PointContents(t, dir, args.archive, Staged(cipher, outer));
    ChecksumVerdict(t, args.archive, cipher);
    ArchiveEntryVerdict(t, args.archive, cipher);
    OuterEntries(t, args, entries, cipher);
    var after := Placed(dir, PointItems(t, args.archive, Staged(cipher, outer)));
    hide *;
    OuterReadsBack(t, args, entries, cipher);
    VerifyByParts(t, after, args.archive, outer, cipher, line);
    assert Verifiable(t, args) <==>
      CreatedAfterWindow(t, args) && EndsWith(args.archive, ".tar.age") && NoSpace(args.archive);
  }

  lemma StagedOuter(t: Tools, args: Arguments, sorted: seq<Component>)
    requires AllRegular(sorted) && Stage(t, args, sorted).Ok?
    ensures Buildable(t, args)
    ensures var staged := Stage(t, args, sorted).value;
      && staged.outer == OuterJson(t, args, Entries(t, sorted), staged.cipher)
      && (args.recipient.Regular? ==>
            Some(staged.cipher) == t.encrypt(args.recipient.data, args.nonce, PlainPayload(t, args, sorted)))
  {
    hide Buildable, ManifestFields, Entries, PlainPayload, ArchiveJson;
  }

  lemma CipherNotEmpty(t: Tools, r: string, n: nat, x: string)
    requires Lawful(t)
    ensures t.encrypt(r, n, x) != Some("")
  {
  }

  lemma Published(t: Tools, dir: Directory, archive: string, staged: Staged, faults: seq<Fault>)
    requires |faults| == 3 && Vacant(dir, archive)
    requires PublishFrom(dir, PointItems(t, archive, staged), faults, []).1.Ok?
    ensures PublishFrom(dir, PointItems(t, archive, staged), faults, []).0
            == Placed(dir, PointItems(t, archive, staged))
  {
    PointFresh(t, dir, archive, staged);
    PublishLands(dir, PointItems(t, archive, staged), faults);
    hide PublishFrom, Placed, PointItems, Vacant;
  }

  lemma PackedParts(t: Tools, dir: Directory, args: Arguments, components: seq<Component>, faults: seq<Fault>)
    requires |faults| == 3 && PackInto(t, dir, args, components, faults).1.Ok?
    ensures Admitted(dir, args, components)
    ensures args.recipient.Regular? && Acceptable(components) && Vacant(dir, args.archive)
    ensures AllRegular(Sort(components)) && Stage(t, args, Sort(components)).Ok?
    ensures PackInto(t, dir, args, components, faults).0
            == Placed(dir, PointItems(t, args.archive, Stage(t, args, Sort(components)).value))
  {
    hide Acceptable, PathsAllowed, Sort, Stage, PointItems, Vacant, PublishFrom, Placed, AllRegular;
    if Admitted(dir, args, components) {
      assert AllRegular(Sort(components)) by {
        AcceptableSorted(components);
        AcceptableRegular(Sort(components));
      }
      var staged := Stage(t, args, Sort(components));
      if staged.Ok? {
        Published(t, dir, args.archive, staged.value, faults);
      }
    }
  }

  lemma AcceptableRegular(s: seq<Component>)
    requires Acceptable(s)
    ensures AllRegular(s)
  {
  }

  /**
   * A packed point verifies, with the manifest pack wrote, exactly when the window ended no later
   * than the creation time, the name ends in .tar.age and the name holds no white space.
   */
  lemma PackedVerifiesExactly(t: Tools, dir: Directory, args: Arguments, components: seq<Component>, faults: seq<Fault>)
    requires Lawful(t) && SafeName(args.archive) && |faults| == 3
    requires PackInto(t, dir, args, components, faults).1.Ok?
    ensures VerifyOuter(t, PackInto(t, dir, args, components, faults).0, args.archive).Ok? <==> Verifiable(t, args)
    ensures AllRegular(Sort(components)) && Stage(t, args, Sort(components)).Ok?
    ensures Verifiable(t, args) ==>
      VerifyOuter(t, PackInto(t, dir, args, components, faults).0, args.archive)
      == Ok(Stage(t, args, Sort(components)).value.outer)
  {
    PackedParts(t, dir, args, components, faults);
    hide PackInto, VerifyOuter, Placed, PointItems, Stage, Verifiable, Sort, SafeName, Vacant;
    AcceptableSorted(components);
    var sorted := Sort(components);
    StagedOuter(t, args, sorted);
    EntriesValid(t, sorted);
    var staged := Stage(t, args, sorted).value;
    CipherNotEmpty(t, args.recipient.data, args.nonce, PlainPayload(t, args, sorted));
    PlacedPointVerdict(t, dir, args, Entries(t, sorted), staged.cipher);
  }

  /** What pack needs, beside a clean publication: its own checks, and an encryption that succeeds. */
  predicate Packable(t: Tools, dir: Directory, args: Arguments, components: seq<Component>) {
    && Admitted(dir, args, components) && Buildable(t, args)
    && (AcceptableSorted(components);
        t.encrypt(args.recipient.data, args.nonce, PlainPayload(t, args, Sort(components)))).Some?
  }

  lemma StageSucceeds(t: Tools, args: Arguments, sorted: seq<Component>)
    requires args.recipient.Regular? && AllRegular(sorted)
    ensures Stage(t, args, sorted).Ok?
            <==> Buildable(t, args) && t.encrypt(args.recipient.data, args.nonce, PlainPayload(t, args, sorted)).Some?
  {
    hide Buildable, ManifestFields, Entries, PlainPayload, ArchiveJson;
  }

  lemma PublishSucceeds(t: Tools, dir: Directory, archive: string, staged: Staged, faults: seq<Fault>)
    requires |faults| == 3 && Vacant(dir, archive)
    ensures PublishFrom(dir, PointItems(t, archive, staged), faults, []).1.Ok? <==> FirstFault(faults) == 3
  {
    PointFresh(t, dir, archive, staged);
    PublishLands(dir, PointItems(t, archive, staged), faults);
    hide PublishFrom, Placed, PointItems, Vacant, FirstFault;
  }

  /** pack succeeds exactly when its checks pass, the encryption succeeds and no publication step fails. */
  lemma PackSucceedsExactly(
      t: Tools, dir: Directory, args: Arguments, components: seq<Component>, faults: seq<Fault>)
    requires |faults| == 3
    ensures PackInto(t, dir, args, components, faults).1.Ok?
            <==> Packable(t, dir, args, components) && FirstFault(faults) == 3
  {
    hide Acceptable, PathsAllowed, Sort, Stage, Buildable, PointItems, Vacant, PublishFrom, AllRegular, FirstFault,
         PlainPayload;
    if Admitted(dir, args, components) {
      AcceptableSorted(components);
      AcceptableRegular(Sort(components));
      StageSucceeds(t, args, Sort(components));
      var staged := Stage(t, args, Sort(components));
      if staged.Ok? {
        PublishSucceeds(t, dir, args.archive, staged.value, faults);
      }
    }
  }

  // ----- unpacking what was packed -----

  lemma ManifestNameIsNoComponent(name: string)
    requires name in Allowed()
    ensures name != InnerName()
  {
    var m := InnerName();
    assert |m| == 13;
    if name == "db.dump" { assert |name| == 7; }
    if name == "filestore.tar.gz" { assert |name| == 16; }
    if name == "environment_id" { assert |name| == 14; }
    if name == "runtime-lock.json" { assert |name| == 17; }
    if name == "deployment-manifest.json" { assert |name| == 24; }
    if name == "active.pmql" { assert |name| == 11; }
    if name == "product-manifest.json" { assert |name| == 21; }
  }

  function Packed(t: Tools, inner: Json, s: seq<Component>): (members: seq<Member>)
    requires AllRegular(s)
    ensures |members| == |s| + 1
    ensures members[0] == Member(InnerName(), true, |t.renderJson(inner)|, t.renderJson(inner))
    ensures forall i :: 0 <= i < |s| ==>
      members[i + 1] == Member(s[i].name, true, |s[i].source.data|, s[i].source.data)
  {
    AsMembers(TarEntries(t, inner, s))
  }

  lemma AllowedName(s: seq<Component>, i: nat)
    requires Complete(ToSet(Names(s))) && i < |s|
    ensures s[i].name in Allowed() && s[i].name != InnerName()
  {
    hide Allowed, Required, InnerName;
    assert Names(s)[i] in ToSet(Names(s));
    ManifestNameIsNoComponent(s[i].name);
  }

  lemma DistinctWithManifest(names: seq<string>)
    requires NoDuplicates(names) && InnerName() !in names
    ensures NoDuplicates([InnerName()] + names)
  {
    var all := [InnerName()] + names;
    assert forall i :: 0 < i < |all| ==> all[i] == names[i - 1];
  }

  lemma PackedNames(t: Tools, inner: Json, s: seq<Component>)
    requires Acceptable(s)
    ensures MemberNames(Packed(t, inner, s)) == [InnerName()] + Names(s)
    ensures NoDuplicates([InnerName()] + Names(s))
  {
    hide Packed, Complete, SafeName, InnerName;
    forall i | 0 <= i < |s|
      ensures s[i].name != InnerName()
    {
      AllowedName(s, i);
    }
    DistinctWithManifest(Names(s));
    var members := Packed(t, inner, s);
    assert forall i :: 1 <= i < |members| ==> members[i].name == s[i - 1].name;
    assert MemberNames(members) == [InnerName()] + Names(s);
  }

  lemma NamesWithManifest(names: seq<string>)
    requires NoDuplicates([InnerName()] + names)
    requires forall i :: 0 <= i < |names| ==> SafeName(names[i]) && names[i] in Allowed()
    ensures PayloadNames([InnerName()] + names)
  {
    SafeManifestName();
    hide SafeName, NoDuplicates, InnerName, Allowed;
    var all := [InnerName()] + names;
    assert all[0] == InnerName();
    forall i | 0 <= i < |all|
      ensures SafeName(all[i]) && (all[i] == InnerName() || all[i] in Allowed())
    {
      if 0 < i {
        assert all[i] == names[i - 1];
      }
    }
  }

  lemma SafeManifestName()
    ensures SafeName(InnerName())
  {
    assert |InnerName()| == 13;
  }

  lemma PackedHeaders(t: Tools, inner: Json, s: seq<Component>)
    requires Acceptable(s)
    ensures HeadersOk(Packed(t, inner, s))
  {
    PackedNames(t, inner, s);
    hide Packed, Complete, MemberNames, SafeName, NoDuplicates, InnerName, Allowed, PayloadNames;
    forall i | 0 <= i < |Names(s)|
      ensures SafeName(Names(s)[i]) && Names(s)[i] in Allowed()
    {
      AllowedName(s, i);
    }
    var members := Packed(t, inner, s);
    forall i | 0 <= i < |members|
      ensures members[i].regular && 0 <= members[i].size
    {
      if i != 0 {
        assert members[(i - 1) + 1].regular;
      }
    }
    NamesWithManifest(Names(s));
  }

  lemma MemberOfComponent(t: Tools, c: Component)
    requires Lawful(t) && c.source.Regular? && SafeName(c.name) && c.name in Allowed()
    ensures ValidComponent(ComponentEntry(t, c)) && ComponentName(ComponentEntry(t, c)) == c.name
    ensures MemberMatches(t, Member(c.name, true, |c.source.data|, c.source.data), ComponentEntry(t, c))
  {
    EntryValid(t, c);
    hide Lawful, SafeName, Allowed, ValidComponent;
  }

  /** A component's member sits at a known place in the payload and matches its manifest entry. */
  predicate Carries(t: Tools, members: seq<Member>, c: Component)
    requires c.source.Regular?
  {
    && c.name in MemberNames(members)
    && Find(members, c.name) == Member(c.name, true, |c.source.data|, c.source.data)
  }

  lemma PackedCarries(t: Tools, inner: Json, s: seq<Component>, i: nat)
    requires Acceptable(s) && i < |s|
    ensures Carries(t, Packed(t, inner, s), s[i])
  {
    PackedNames(t, inner, s);
    var members := Packed(t, inner, s);
    assert members[i + 1] == Member(s[i].name, true, |s[i].source.data|, s[i].source.data);
    CarriedAt(t, members, s[i], i + 1);
  }

  lemma CarriedAt(t: Tools, members: seq<Member>, c: Component, k: nat)
    requires c.source.Regular? && k < |members| && NoDuplicates(MemberNames(members))
    requires members[k] == Member(c.name, true, |c.source.data|, c.source.data)
    ensures Carries(t, members, c)
  {
    FindDistinct(members, k);
    hide Find, MemberNames, NoDuplicates;
  }

  lemma EachCarried(t: Tools, members: seq<Member>, s: seq<Component>, entries: seq<Json>)
    requires AllRegular(s) && entries == Entries(t, s)
    requires forall i :: 0 <= i < |s| ==>
      ValidComponent(ComponentEntry(t, s[i])) && ComponentName(ComponentEntry(t, s[i])) == s[i].name
    requires forall i :: 0 <= i < |s| ==> Carries(t, members, s[i])
    requires forall i :: 0 <= i < |s| ==>
      MemberMatches(t, Member(s[i].name, true, |s[i].source.data|, s[i].source.data), ComponentEntry(t, s[i]))
    ensures ValidEach(entries) && ComponentNames(entries) == Names(s)
    ensures EachMatches(t, members, entries)
  {
    hide ValidComponent, ComponentName, MemberMatches, Find, MemberNames, ComponentEntry;
    assert forall i :: 0 <= i < |s| ==> ComponentName(entries[i]) == s[i].name;
    assert ComponentNames(entries) == Names(s);
  }

  lemma PackedEntriesMatch(t: Tools, inner: Json, s: seq<Component>)
    requires Lawful(t) && Acceptable(s)
    ensures ValidEach(Entries(t, s)) && ComponentNames(Entries(t, s)) == Names(s)
    ensures EachMatches(t, Packed(t, inner, s), Entries(t, s))
  {
    var members := Packed(t, inner, s);
    hide Lawful, Packed, Complete, Carries, MemberMatches, ValidComponent, ComponentName, ComponentEntry, Entries,
         EachMatches, ValidEach, ComponentNames, Names, SafeName, NoDuplicates;
    forall i | 0 <= i < |s|
      ensures ValidComponent(ComponentEntry(t, s[i])) && ComponentName(ComponentEntry(t, s[i])) == s[i].name
      ensures Carries(t, members, s[i])
      ensures MemberMatches(t, Member(s[i].name, true, |s[i].source.data|, s[i].source.data), ComponentEntry(t, s[i]))
    {
      PackedCarries(t, inner, s, i);
      AllowedName(s, i);
      MemberOfComponent(t, s[i]);
    }
    EachCarried(t, members, s, Entries(t, s));
  }

  lemma ListedByNames(members: seq<Member>, entries: seq<Json>, names: seq<string>)
    requires ValidEach(entries) && ComponentNames(entries) == names
    requires MemberNames(members) == [InnerName()] + names && NoDuplicates([InnerName()] + names)
    ensures MembersListed(members, entries)
  {
    hide ValidEach, ComponentNames, MemberNames, InnerName, NoDuplicates;
    SetSize([InnerName()] + names);
    assert ToSet([InnerName()] + names) == {InnerName()} + ToSet(names);
  }

  lemma PackedInner(t: Tools, inner: Json, s: seq<Component>)
    requires Acceptable(s)
    ensures InnerName() in MemberNames(Packed(t, inner, s))
    ensures Find(Packed(t, inner, s), InnerName()).data == t.renderJson(inner)
  {
    PackedNames(t, inner, s);
    hide Acceptable, Find, Packed, InnerName;
    FindDistinct(Packed(t, inner, s), 0);
  }

  lemma PayloadByParts(t: Tools, plain: string, members: seq<Member>, outer: Json, inner: Json)
    requires outer.Object? && ValidEach(EntriesOf(outer)) && inner == Inner(outer)
    requires t.readTar(plain) == Some(members) && HeadersOk(members)
    requires InnerName() in MemberNames(members)
    requires t.parseJson(Find(members, InnerName()).data) == Some(inner)
    requires CheckManifest(t, inner, false) == Ok(inner)
    requires MembersListed(members, EntriesOf(outer)) && EachMatches(t, members, EntriesOf(outer))
    ensures Payload(t, plain, outer) == Ok(Extracted(members))
  {
    hide CheckManifest, Inner, HeadersOk, MembersListed, EachMatches, Find, Extracted, EntriesOf, ValidEach,
         MemberNames, InnerName;
  }

  lemma EntriesOfPayload(t: Tools, inner: Json, s: seq<Component>)
    requires Acceptable(s)
    ensures PayloadEntries(TarEntries(t, inner, s))
  {
    hide Allowed, Required, InnerName, SafeName, NoDuplicates, Complete;
    var entries := TarEntries(t, inner, s);
    forall i | 0 < i < |entries|
      ensures entries[i].0 in Allowed()
    {
      assert entries[(i - 1) + 1] == (s[i - 1].name, s[i - 1].source.data);
      AllowedName(s, i - 1);
    }
  }

  lemma LibraryRoundTrips(t: Tools, inner: Json, s: seq<Component>)
    requires Lawful(t) && AllRegular(s) && KnownKeys(inner) && PayloadEntries(TarEntries(t, inner, s))
    ensures t.readTar(t.writeTar(TarEntries(t, inner, s))) == Some(Packed(t, inner, s))
    ensures t.parseJson(t.renderJson(inner)) == Some(inner)
  {
    hide TarEntries, AllRegular, KnownKeys, PayloadEntries;
  }

  /** The plain payload of a packed point is accepted and gives back every component's bytes. */
  lemma PackedPayload(t: Tools, outer: Json, s: seq<Component>)
    requires Lawful(t) && Acceptable(s)
    requires CheckManifest(t, outer, true) == Ok(outer) && outer.Object? && EntriesOf(outer) == Entries(t, s)
    ensures ValidEach(EntriesOf(outer))
    ensures Payload(t, t.writeTar(TarEntries(t, Inner(outer), s)), outer) == Ok(Extracted(Packed(t, Inner(outer), s)))
  {
    hide *;
    AcceptableRegular(s);
    var inner := Inner(outer);
    var members := Packed(t, inner, s);
    InnerOfOuter(t, outer);
    PackedHeaders(t, inner, s);
    PackedEntriesMatch(t, inner, s);
    PackedNames(t, inner, s);
    ListedByNames(members, Entries(t, s), Names(s));
    PackedInner(t, inner, s);
    AcceptedKnown(t, inner, false);
    EntriesOfPayload(t, inner, s);
    LibraryRoundTrips(t, inner, s);
    PayloadByParts(t, t.writeTar(TarEntries(t, inner, s)), members, outer, inner);
  }

  /** The restored files are the components and the inner manifest, and nothing else. */
  ghost predicate Restores(t: Tools, files: Files, inner: Json, components: seq<Component>)
    requires AllRegular(components)
  {
    && files.Keys == {InnerName()} + ToSet(Names(components))
    && files[InnerName()] == t.renderJson(inner)
    && forall i :: 0 <= i < |components| ==>
         components[i].name in files && files[components[i].name] == components[i].source.data
  }

  lemma ExtractedKeys(members: seq<Member>, names: seq<string>)
    requires MemberNames(members) == [InnerName()] + names
    ensures Extracted(members).Keys == {InnerName()} + ToSet(names)
  {
    hide Find, MemberNames, InnerName;
    assert ToSet([InnerName()] + names) == {InnerName()} + ToSet(names);
  }

  lemma CarriedData(t: Tools, members: seq<Member>, c: Component)
    requires c.source.Regular? && Carries(t, members, c)
    ensures c.name in Extracted(members) && Extracted(members)[c.name] == c.source.data
  {
    hide Find, MemberNames;
  }

  lemma SortedCarries(t: Tools, inner: Json, components: seq<Component>, i: nat)
    requires Acceptable(components) && i < |components| && Acceptable(Sort(components))
    requires forall c :: c in components <==> c in Sort(components)
    ensures var files := Extracted(Packed(t, inner, Sort(components)));
      components[i].name in files && files[components[i].name] == components[i].source.data
  {
    hide Sort, Packed, Complete, Carries, SafeName, Names, NoDuplicates, Extracted;
    var s := Sort(components);
    assert components[i] in s;
    var j :| 0 <= j < |s| && s[j] == components[i];
    PackedCarries(t, inner, s, j);
    CarriedData(t, Packed(t, inner, s), s[j]);
  }

  lemma RestoresByParts(t: Tools, files: Files, inner: Json, components: seq<Component>)
    requires AllRegular(components)
    requires files.Keys == {InnerName()} + ToSet(Names(components)) && files[InnerName()] == t.renderJson(inner)
    requires forall i :: 0 <= i < |components| ==>
      components[i].name in files && files[components[i].name] == components[i].source.data
    ensures Restores(t, files, inner, components)
  {
  }

  lemma ExtractedRestores(t: Tools, inner: Json, components: seq<Component>)
    requires Acceptable(components)
    ensures Acceptable(Sort(components))
    ensures Restores(t, Extracted(Packed(t, inner, Sort(components))), inner, components)
  {
    AcceptableSorted(components);
    SortedNames(components);
    AcceptableRegular(components);
    var s := Sort(components);
    PackedNames(t, inner, s);
    ExtractedKeys(Packed(t, inner, s), Names(s));
    PackedInner(t, inner, s);
    var files := Extracted(Packed(t, inner, s));
    assert files[InnerName()] == t.renderJson(inner);
    hide *;
    forall i | 0 <= i < |components|
      ensures components[i].name in files && files[components[i].name] == components[i].source.data
    {
      SortedCarries(t, inner, components, i);
    }
    RestoresByParts(t, files, inner, components);
  }

  /** The identity asked for on the command line is the one the point was packed for. */
  predicate AsksFor(expected: Expected, args: Arguments) {
    && (expected.instance.None? || expected.instance.value == args.instance)
    && (expected.database.None? || expected.database.value == args.database)
    && (expected.environment.None? || expected.environment.value == args.environment)
  }

  lemma ExpectedGiven(t: Tools, args: Arguments, entries: seq<Json>, cipher: string, expected: Expected)
    ensures ExpectedSource(OuterJson(t, args, entries, cipher), expected) <==> AsksFor(expected, args)
  {
    ManifestEntries(t, args, entries);
    var m := OuterJson(t, args, entries, cipher);
    assert m.fields[Source] == SourceJson(args) by {
      hide ManifestFields, SourceJson, ArchiveJson;
    }
    hide ManifestFields, ArchiveJson, OuterJson;
  }

  lemma OuterEntriesOf(t: Tools, args: Arguments, entries: seq<Json>, cipher: string)
    ensures EntriesOf(OuterJson(t, args, entries, cipher)) == entries
  {
    OuterEntries(t, args, entries, cipher);
    hide OuterJson, Inner;
  }

  lemma CipherPlaced(t: Tools, dir: Directory, args: Arguments, components: seq<Component>, faults: seq<Fault>)
    requires |faults| == 3 && PackInto(t, dir, args, components, faults).1.Ok?
    ensures AllRegular(Sort(components)) && Stage(t, args, Sort(components)).Ok?
    ensures IsFile(PackInto(t, dir, args, components, faults).0, args.archive)
    ensures PackInto(t, dir, args, components, faults).0[args.archive].data
            == Stage(t, args, Sort(components)).value.cipher
  {
    PackedParts(t, dir, args, components, faults);
    hide PackInto, Stage, Sort, Vacant, PointItems, Placed, Acceptable, AllRegular;
    PointContents(t, dir, args.archive, Stage(t, args, Sort(components)).value);
  }

  lemma UnpackByParts(t: Tools, dir: Directory, archive: string, identity: string, expected: Expected, outer: Json,
                      plain: string, files: Files)
    requires VerifyOuter(t, dir, archive) == Ok(outer) && ExpectedSource(outer, expected)
    requires IsFile(dir, archive) && t.decrypt(identity, dir[archive].data) == Some(plain)
    requires outer.Object? && ValidEach(EntriesOf(outer)) && Payload(t, plain, outer) == Ok(files)
    ensures Unpack(t, dir, archive, identity, expected, true) == Ok(files)
  {
    hide VerifyOuter, ExpectedSource, Payload, EntriesOf, ValidEach;
  }

  /** Packing and then unpacking with the matching identity gives back exactly the components and the manifest. */
  lemma PackThenUnpack(t: Tools, dir: Directory, args: Arguments, components: seq<Component>, faults: seq<Fault>,
                       identity: string, expected: Expected)
    requires Lawful(t) && SafeName(args.archive) && |faults| == 3
    requires PackInto(t, dir, args, components, faults).1.Ok? && Verifiable(t, args)
    requires args.recipient.Regular? && KeyPair(t, args.recipient.data, identity) && AsksFor(expected, args)
    ensures AllRegular(components) && AllRegular(Sort(components)) && Stage(t, args, Sort(components)).Ok?
    ensures Stage(t, args, Sort(components)).value.outer.Object?
    ensures var r := Unpack(t, PackInto(t, dir, args, components, faults).0, args.archive, identity, expected, true);
      r.Ok? && Restores(t, r.value, Inner(Stage(t, args, Sort(components)).value.outer), components)
  {
    hide *;
    PackedParts(t, dir, args, components, faults);
    PackedVerifiesExactly(t, dir, args, components, faults);
    CipherPlaced(t, dir, args, components, faults);
    AcceptableRegular(components);
    AcceptableSorted(components);
    var after := PackInto(t, dir, args, components, faults).0;
    var sorted := Sort(components);
    var staged := Stage(t, args, sorted).value;
    var entries := Entries(t, sorted);
    StagedOuter(t, args, sorted);
    OuterEntries(t, args, entries, staged.cipher);
    OuterEntriesOf(t, args, entries, staged.cipher);
    ExpectedGiven(t, args, entries, staged.cipher, expected);
    var inner := Object(ManifestFields(t, args, entries));
    OuterIsObject(t, args, entries, staged.cipher);
    VerifiedManifest(t, after, args.archive);
    PackedPayload(t, staged.outer, sorted);
    var plain := PlainPayload(t, args, sorted);
    assert plain == t.writeTar(TarEntries(t, inner, sorted)) by {
      PayloadText(t, args, sorted);
    }
    Decrypts(t, args.recipient.data, identity, args.nonce, plain, staged.cipher);
    UnpackByParts(t, after, args.archive, identity, expected, staged.outer, plain, Extracted(Packed(t, inner, sorted)));
    ExtractedRestores(t, inner, components);
  }

  lemma PayloadText(t: Tools, args: Arguments, sorted: seq<Component>)
    requires AllRegular(sorted)
    ensures PlainPayload(t, args, sorted)
            == t.writeTar(TarEntries(t, Object(ManifestFields(t, args, Entries(t, sorted))), sorted))
  {
  }

  lemma OuterIsObject(t: Tools, args: Arguments, entries: seq<Json>, cipher: string)
    ensures OuterJson(t, args, entries, cipher).Object?
  {
  }

  lemma VerifiedManifest(t: Tools, dir: Directory, archive: string)
    requires VerifyOuter(t, dir, archive).Ok?
    ensures CheckManifest(t, VerifyOuter(t, dir, archive).value, true) == VerifyOuter(t, dir, archive)
  {
    hide CheckManifest;
  }

  lemma Decrypts(t: Tools, recipient: string, identity: string, nonce: nat, plain: string, cipher: string)
    requires KeyPair(t, recipient, identity) && t.encrypt(recipient, nonce, plain) == Some(cipher)
    ensures t.decrypt(identity, cipher) == Some(plain)
  {
  }
}
