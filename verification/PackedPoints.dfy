/** What pack asks for and what it writes, key by key and byte by byte. */
module PackedPoints {
  import opened Common
  import opened Manifests
  import opened RecoveryPoint
  import opened Publication
  import opened Packing
  import opened VerifiedPoints
  import RoundTrip

  // ----- the manifest -----

  /** An argument, or what stands in for it when it is missing or empty. */
  predicate Chosen(given: Option<string>, otherwise: string, text: string) {
    && (given == None || given == Some("") ==> text == otherwise)
    && (given != None && given != Some("") ==> Some(text) == given)
  }

  lemma ChosenExactly(given: Option<string>, otherwise: string, text: string)
    ensures Chosen(given, otherwise, text) <==> text == OrElse(given, otherwise)
  {
  }

  predicate SaysSource(args: Arguments, j: Json) {
    && j.Object? && j.fields.Keys == {InstanceSlug, DatabaseName, EnvironmentId, ProductVersion, ReleaseSha}
    && Part(j, InstanceSlug) == Text(args.instance) && Part(j, DatabaseName) == Text(args.database)
    && Part(j, EnvironmentId) == Text(args.environment) && Part(j, ProductVersion) == Text(args.product)
    && Part(j, ReleaseSha) == Text(args.release)
  }

  predicate SaysEncryption(args: Arguments, j: Json) {
    && j.Object? && j.fields.Keys == {Tool, Version, Mode}
    && Part(j, Tool) == Text("age") && Part(j, Version) == Text(args.expectedAge)
    && Part(j, Mode) == Text("recipient-file")
  }

  predicate SaysWhen(j: Json, key: Field, given: Option<string>, created: string) {
    Part(j, key).Text? && Chosen(given, created, Part(j, key).s)
  }

  predicate SaysWindow(args: Arguments, created: string, j: Json) {
    && j.Object? && j.fields.Keys == {Method, QuiesceStart, DatabaseSnapshot, FilestoreSnapshot, QuiesceEnd}
    && Part(j, Method) == Text(args.consistencyMethod)
    && SaysWhen(j, QuiesceStart, args.quiesceStart, created)
    && SaysWhen(j, DatabaseSnapshot, args.databaseSnapshot, created)
    && SaysWhen(j, FilestoreSnapshot, args.filestoreSnapshot, created)
    && SaysWhen(j, QuiesceEnd, args.quiesceEnd, created)
  }

  /** Name, digest and size of some content. */
  predicate SaysFile(t: Tools, j: Json, name: string, data: string) {
    && j.Object? && j.fields.Keys == {Name, Sha256, Size}
    && Part(j, Name) == Text(name) && Part(j, Sha256) == Text(t.sha256(data)) && Part(j, Size) == Int(|data|)
  }

  /** The components in the order of their names. */
  predicate InNameOrder(components: seq<Component>, sorted: seq<Component>) {
    && multiset(sorted) == multiset(components)
    && forall i, k :: 0 <= i < k < |sorted| ==> Precedes(sorted[i].name, sorted[k].name)
  }

  predicate SaysComponents(t: Tools, sorted: seq<Component>, j: Json) {
    && j.List? && |j.items| == |sorted|
    && forall i :: 0 <= i < |sorted| ==>
         sorted[i].source.Regular? && SaysFile(t, j.items[i], sorted[i].name, sorted[i].source.data)
  }

  /** The inner manifest of a point. */
  ghost predicate SaysAll(t: Tools, args: Arguments, sorted: seq<Component>, j: Json) {
    && j.Object?
    && j.fields.Keys
       == {SchemaVersion, FormatName, CreatedUtc, PointClass, Source, Encryption, Consistency, Components}
    && Part(j, SchemaVersion) == Int(1) && Part(j, FormatName) == Text("pmqms-recovery-point-v1")
    && Part(j, CreatedUtc).Text? && Chosen(args.created, args.now, Part(j, CreatedUtc).s)
    && Part(j, PointClass) == Text(args.pointClass)
    && SaysSource(args, Part(j, Source)) && SaysEncryption(args, Part(j, Encryption))
    && SaysWindow(args, Part(j, CreatedUtc).s, Part(j, Consistency))
    && SaysComponents(t, sorted, Part(j, Components))
  }

  lemma SourceSaid(args: Arguments)
    ensures SaysSource(args, SourceJson(args)) && SaysEncryption(args, EncryptionJson(args))
  {
  }

  lemma WindowSaid(args: Arguments)
    ensures SaysWindow(args, Created(args), ConsistencyJson(args))
  {
    ChosenExactly(args.quiesceStart, Created(args), OrElse(args.quiesceStart, Created(args)));
    ChosenExactly(args.databaseSnapshot, Created(args), OrElse(args.databaseSnapshot, Created(args)));
    ChosenExactly(args.filestoreSnapshot, Created(args), OrElse(args.filestoreSnapshot, Created(args)));
    ChosenExactly(args.quiesceEnd, Created(args), OrElse(args.quiesceEnd, Created(args)));
    hide Chosen, OrElse, Created;
  }

  lemma ComponentsSaid(t: Tools, sorted: seq<Component>)
    requires AllRegular(sorted)
    ensures SaysComponents(t, sorted, List(Entries(t, sorted)))
  {
    forall i | 0 <= i < |sorted|
      ensures SaysFile(t, Entries(t, sorted)[i], sorted[i].name, sorted[i].source.data)
    {
    }
    hide SaysFile, Entries;
  }

  lemma AllSaid(t: Tools, args: Arguments, sorted: seq<Component>)
    requires AllRegular(sorted)
    ensures SaysAll(t, args, sorted, Object(ManifestFields(t, args, Entries(t, sorted))))
  {
    RoundTrip.ManifestEntries(t, args, Entries(t, sorted));
    SourceSaid(args);
    WindowSaid(args);
    ComponentsSaid(t, sorted);
    ChosenExactly(args.created, args.now, Created(args));
    hide ManifestFields, Entries, SaysSource, SaysEncryption, SaysWindow, SaysComponents, SourceJson, EncryptionJson,
         ConsistencyJson, AllRegular, Chosen;
  }

  // ----- the order -----

  lemma {:induction false} SortedPrecedes(s: seq<Component>)
    requires Sorted(s)
    ensures forall i, k :: 0 <= i < k < |s| ==> Precedes(s[i].name, s[k].name)
  {
    hide Precedes;
    if s != [] {
      SortedHead(s);
      SortedPrecedes(s[1..]);
      forall i, k | 0 <= i < k < |s|
        ensures Precedes(s[i].name, s[k].name)
      {
        if i == 0 {
          assert s[k] in s[1..];
          TextLessExactly(s[0].name, s[k].name);
        } else {
          assert s[1..][i - 1] == s[i] && s[1..][k - 1] == s[k];
        }
      }
    }
  }

  lemma {:induction false} PrecedesSorted(s: seq<Component>)
    requires forall i, k :: 0 <= i < k < |s| ==> Precedes(s[i].name, s[k].name)
    ensures Sorted(s)
  {
    hide Precedes;
    if 1 < |s| {
      forall i, k | 0 <= i < k < |s[1..]|
        ensures Precedes(s[1..][i].name, s[1..][k].name)
      {
        assert s[1..][i] == s[i + 1] && s[1..][k] == s[k + 1];
      }
      PrecedesSorted(s[1..]);
      TextLessExactly(s[0].name, s[1].name);
    }
  }

  lemma SortIsOrder(components: seq<Component>, sorted: seq<Component>)
    requires NoDuplicates(Names(components))
    ensures InNameOrder(components, sorted) <==> sorted == Sort(components)
  {
    SortPermutes(components);
    SortSorts(components);
    SortedPrecedes(Sort(components));
    if InNameOrder(components, sorted) {
      PrecedesSorted(sorted);
      SortedUnique(sorted, Sort(components));
    }
    hide Sort, Sorted, Precedes;
  }

  // ----- what pack asks for -----

  /** The letter, in either case; the Kelvin sign is lower-cased to k. */
  predicate SameLetter(c: char, w: char) {
    c == w || ('a' <= w <= 'z' && c as int + 32 == w as int) || (w == 'k' && c as int == 0x212A)
  }

  predicate Spells(text: string, word: string) {
    |text| == |word| && forall i :: 0 <= i < |word| ==> SameLetter(text[i], word[i])
  }

  predicate LowerWord(word: string) {
    forall i :: 0 <= i < |word| ==> 'a' <= word[i] <= 'z' || word[i] == '.'
  }

  lemma SpellsExactly(text: string, word: string)
    requires LowerWord(word)
    ensures Lower(text) == word <==> Spells(text, word)
  {
    forall c: char, w: char | 'a' <= w <= 'z' || w == '.'
      ensures LowerChar(c) == w <==> SameLetter(c, w)
    {
    }
    hide LowerChar, SameLetter;
  }

  /** A directory of secrets on the way, or the name of a private key. */
  predicate Sensitive(path: Path) {
    || (exists i :: 0 <= i < |path| && (Spells(path[i], "secrets") || Spells(path[i], ".ssh")))
    || (path != []
        && (Spells(path[|path| - 1], "identity") || Spells(path[|path| - 1], "identity.age")
            || Spells(path[|path| - 1], "private.key")))
  }

  lemma PartExactly(part: string)
    ensures SensitivePart(part) <==> Spells(part, "secrets") || Spells(part, ".ssh")
  {
    hide Lower, Spells;
    SpellsExactly(part, "secrets");
    SpellsExactly(part, ".ssh");
  }

  lemma FileExactly(name: string)
    ensures SensitiveFile(name)
            <==> Spells(name, "identity") || Spells(name, "identity.age") || Spells(name, "private.key")
  {
    hide Lower, Spells;
    SpellsExactly(name, "identity");
    SpellsExactly(name, "identity.age");
    SpellsExactly(name, "private.key");
  }

  lemma SensitiveExactly(path: Path)
    ensures SensitivePath(path) <==> Sensitive(path)
  {
    hide SensitivePart, SensitiveFile, Spells;
    forall i | 0 <= i < |path|
      ensures SensitivePart(path[i]) <==> Spells(path[i], "secrets") || Spells(path[i], ".ssh")
    {
      PartExactly(path[i]);
    }
    if path != [] {
      FileExactly(path[|path| - 1]);
    }
  }

  /** The file of a name beside the archive. */
  predicate Beside(args: Arguments, suffix: string, path: Path) {
    path == args.directory + [args.archive + suffix]
  }

  predicate Output(args: Arguments, path: Path) {
    Beside(args, "", path) || Beside(args, ".manifest.json", path) || Beside(args, ".sha256", path)
  }

  /** Outputs under the names of the contract; nothing read is written; nothing sensitive or the recipient packed. */
  predicate KeepsApart(args: Arguments, components: seq<Component>) {
    && (args.manifestOutput != None ==> Beside(args, ".manifest.json", args.manifestOutput.value))
    && (args.checksumOutput != None ==> Beside(args, ".sha256", args.checksumOutput.value))
    && !Output(args, args.recipientPath)
    && forall i :: 0 <= i < |components| ==>
         !Sensitive(components[i].path) && !Output(args, components[i].path)
         && components[i].path != args.recipientPath
  }

  lemma ApartExactly(args: Arguments, components: seq<Component>)
    ensures PathsAllowed(args, components) <==> KeepsApart(args, components)
  {
    assert args.archive + "" == args.archive;
    forall path: Path
      ensures IsOutput(args, path) <==> Output(args, path)
      ensures SensitivePath(path) <==> Sensitive(path)
    {
      SensitiveExactly(path);
    }
    hide IsOutput, Output, SensitivePath, Sensitive;
  }

  predicate Packs(components: seq<Component>, name: string) {
    exists i :: 0 <= i < |components| && components[i].name == name
  }

  /** Readable files under listed names, none twice, the five needed ones among them. */
  predicate Suits(components: seq<Component>) {
    && (forall i :: 0 <= i < |components| ==>
          components[i].source.Regular? && (components[i].name in NEEDED || components[i].name in OPTIONAL))
    && (forall i, k :: 0 <= i < k < |components| ==> components[i].name != components[k].name)
    && forall n :: n in NEEDED ==> Packs(components, n)
  }

  lemma NamesExactly(components: seq<Component>, n: string)
    ensures n in Names(components) <==> Packs(components, n)
  {
  }

  lemma NeededPacked(components: seq<Component>)
    ensures Required() <= ToSet(Names(components)) <==> forall n :: n in NEEDED ==> Packs(components, n)
  {
    forall n: string
      ensures n in Names(components) <==> Packs(components, n)
      ensures n in Required() <==> n in NEEDED
    {
      NamesExactly(components, n);
      RequiredExactly(n);
    }
    hide Names, Packs, Required, NEEDED;
  }

  lemma ListedPacked(components: seq<Component>)
    ensures (forall i :: 0 <= i < |components| ==> SafeName(components[i].name))
            && ToSet(Names(components)) <= Allowed()
            <==> forall i :: 0 <= i < |components| ==> components[i].name in NEEDED || components[i].name in OPTIONAL
  {
    var names := Names(components);
    forall n: string
      ensures n in Allowed() <==> n in NEEDED || n in OPTIONAL
      ensures n in Allowed() ==> SafeName(n)
    {
      AllowedExactly(n);
    }
    hide Names, Allowed, SafeName, NEEDED, OPTIONAL;
    assert forall i :: 0 <= i < |components| ==> names[i] in ToSet(names);
  }

  lemma SuitsExactly(components: seq<Component>)
    ensures Acceptable(components) <==> Suits(components)
  {
    NeededPacked(components);
    ListedPacked(components);
    hide Packs, Allowed, Required, SafeName, NEEDED, OPTIONAL, ToSet;
    assert NoDuplicates(Names(components)) <==>
      forall i, k :: 0 <= i < k < |components| ==> components[i].name != components[k].name by {
      DistinctNames(components, Names(components));
    }
    hide Names, NoDuplicates;
  }

  lemma DistinctNames(components: seq<Component>, names: seq<string>)
    requires |names| == |components| && forall i :: 0 <= i < |components| ==> names[i] == components[i].name
    ensures NoDuplicates(names)
            <==> forall i, k :: 0 <= i < k < |components| ==> components[i].name != components[k].name
  {
  }

  /** What pack checks before it stages anything. */
  predicate Admits(dir: Directory, args: Arguments, components: seq<Component>) {
    && args.recipient.Regular? && Suits(components) && KeepsApart(args, components)
    && args.archive !in dir && args.archive + ".manifest.json" !in dir && args.archive + ".sha256" !in dir
  }

  lemma AdmitsExactly(dir: Directory, args: Arguments, components: seq<Component>)
    ensures Admitted(dir, args, components) <==> Admits(dir, args, components)
  {
    SuitsExactly(components);
    ApartExactly(args, components);
    hide Acceptable, Suits, PathsAllowed, KeepsApart;
  }

  /** A known class, the pinned tool, a named source, and a window in order. */
  ghost predicate Builds(t: Tools, args: Arguments) {
    && (args.pointClass == "intraday" || args.pointClass == "daily" || args.pointClass == "monthly")
    && VersionText(args.expectedAge) && args.reportedAge == Some(args.expectedAge)
    && Filled(Text(args.instance)) && Filled(Text(args.database)) && Filled(Text(args.environment))
    && Filled(Text(args.product)) && Hex(args.release, 40)
    && args.consistencyMethod == "maintenance-write-stop"
    && exists created, moment, stopped, database, files, resumed ::
         && Chosen(args.created, args.now, created) && Reads(t, Text(created), moment)
         && At(t, args.quiesceStart, created, stopped) && At(t, args.databaseSnapshot, created, database)
         && At(t, args.filestoreSnapshot, created, files) && At(t, args.quiesceEnd, created, resumed)
         && stopped <= database <= files <= resumed
  }

  /** A time that is given, or the creation time. */
  ghost predicate At(t: Tools, given: Option<string>, created: string, moment: nat) {
    exists text :: Chosen(given, created, text) && Reads(t, Text(text), moment)
  }

  lemma AtExactly(t: Tools, given: Option<string>, created: string, moment: nat)
    ensures At(t, given, created, moment) <==> Stamp(t, Text(OrElse(given, created))) == Some(moment)
  {
    forall text
      ensures Chosen(given, created, text) <==> text == OrElse(given, created)
      ensures Stamp(t, Text(text)) == Some(moment) <==> Reads(t, Text(text), moment)
    {
      ChosenExactly(given, created, text);
      ReadsExactly(t, Text(text), moment);
    }
    hide Chosen, Reads, Stamp, OrElse;
  }

  lemma WindowBuilds(t: Tools, args: Arguments)
    ensures Stamp(t, Text(Created(args))).Some? && WindowOrdered(t, args)
            <==> && args.consistencyMethod == "maintenance-write-stop"
                 && exists created, moment, stopped, database, files, resumed ::
                      && Chosen(args.created, args.now, created) && Reads(t, Text(created), moment)
                      && At(t, args.quiesceStart, created, stopped) && At(t, args.databaseSnapshot, created, database)
                      && At(t, args.filestoreSnapshot, created, files) && At(t, args.quiesceEnd, created, resumed)
                      && stopped <= database <= files <= resumed
  {
    var created := Created(args);
    forall text
      ensures Chosen(args.created, args.now, text) <==> text == created
    {
      ChosenExactly(args.created, args.now, text);
    }
    forall given, moment: nat
      ensures At(t, given, created, moment) <==> Stamp(t, Text(OrElse(given, created))) == Some(moment)
      ensures Stamp(t, Text(created)) == Some(moment) <==> Reads(t, Text(created), moment)
    {
      AtExactly(t, given, created, moment);
      ReadsExactly(t, Text(created), moment);
    }
    hide Chosen, Reads, Stamp, OrElse, At, Created;
    if Stamp(t, Text(created)).Some? && WindowOrdered(t, args) {
      var a := Stamp(t, Text(OrElse(args.quiesceStart, created))).value;
      var b := Stamp(t, Text(OrElse(args.databaseSnapshot, created))).value;
      var c := Stamp(t, Text(OrElse(args.filestoreSnapshot, created))).value;
      var d := Stamp(t, Text(OrElse(args.quiesceEnd, created))).value;
      assert Chosen(args.created, args.now, created) && Reads(t, Text(created), Stamp(t, Text(created)).value)
        && At(t, args.quiesceStart, created, a) && At(t, args.databaseSnapshot, created, b)
        && At(t, args.filestoreSnapshot, created, c) && At(t, args.quiesceEnd, created, d) && a <= b <= c <= d;
    }
  }

  lemma BuildsExactly(t: Tools, args: Arguments)
    ensures Buildable(t, args) <==> Builds(t, args)
  {
    WindowBuilds(t, args);
    VersionExactly(args.expectedAge);
    ReleaseExactly(Text(args.release));
    FilledExactly(Text(args.instance));
    FilledExactly(Text(args.database));
    FilledExactly(Text(args.environment));
    FilledExactly(Text(args.product));
    hide WindowOrdered, Chosen, Reads, At, Stamp, IsVersion, VersionText, NonBlank, Filled, IsHex, Hex, Created;
  }

  // ----- what it writes -----

  /** The tar archive of a point: its inner manifest first, then the components in order. */
  ghost predicate Payload(t: Tools, args: Arguments, components: seq<Component>, inner: Json, plain: string) {
    exists sorted :: PayloadOf(t, args, components, sorted, inner, plain)
  }

  ghost predicate PayloadOf(t: Tools, args: Arguments, components: seq<Component>, sorted: seq<Component>,
                            inner: Json, plain: string) {
    && InNameOrder(components, sorted) && SaysAll(t, args, sorted, inner)
    && exists entries :: Tarred(t, sorted, inner, entries) && plain == t.writeTar(entries)
  }

  predicate Tarred(t: Tools, sorted: seq<Component>, inner: Json, entries: seq<(string, string)>) {
    && |entries| == 1 + |sorted| && entries[0] == ("manifest.json", t.renderJson(inner))
    && forall i :: 0 <= i < |sorted| ==>
         sorted[i].source.Regular? && entries[i + 1] == (sorted[i].name, sorted[i].source.data)
  }

  /** The outer manifest is the inner one and the archive's own name, digest and size. */
  ghost predicate Seals(t: Tools, archive: string, cipher: string, inner: Json, outer: Json) {
    && inner.Object? && outer.Object? && outer.fields.Keys == inner.fields.Keys + {EncryptedArchive}
    && (forall k :: k in inner.fields && k != EncryptedArchive ==> outer.fields[k] == inner.fields[k])
    && SaysFile(t, Part(outer, EncryptedArchive), archive, cipher)
  }

  /** Three files more than before: the archive, its manifest and its checksum. */
  predicate Writes(t: Tools, before: Directory, after: Directory, archive: string, cipher: string, outer: Json) {
    && after.Keys == before.Keys + {archive, archive + ".manifest.json", archive + ".sha256"}
    && (forall n :: n in before ==> after[n] == before[n])
    && Holds(after, archive, cipher) && Holds(after, archive + ".manifest.json", t.renderJson(outer))
    && Holds(after, archive + ".sha256", t.sha256(cipher) + "  " + archive + "\n")
  }

  lemma OuterSeals(t: Tools, args: Arguments, entries: seq<Json>, cipher: string)
    ensures var inner := Object(ManifestFields(t, args, entries));
      Seals(t, args.archive, cipher, inner, RoundTrip.OuterJson(t, args, entries, cipher))
  {
    hide ManifestFields;
  }

  lemma EntriesPlain(t: Tools, args: Arguments, components: seq<Component>, sorted: seq<Component>, inner: Json)
    requires AllRegular(sorted) && InNameOrder(components, sorted) && SaysAll(t, args, sorted, inner)
    ensures PayloadOf(t, args, components, sorted, inner, t.writeTar(TarEntries(t, inner, sorted)))
  {
    hide SaysAll, InNameOrder;
    var entries := TarEntries(t, inner, sorted);
    assert Tarred(t, sorted, inner, entries);
    hide TarEntries;
  }

  lemma SuitsSorted(components: seq<Component>)
    requires Suits(components)
    ensures AllRegular(components) && AllRegular(Sort(components)) && InNameOrder(components, Sort(components))
  {
    SuitsExactly(components);
    hide Suits, Sort;
    RoundTrip.AcceptableRegular(components);
    SortKeepsRegular(components);
    SortIsOrder(components, Sort(components));
  }

  function InnerOf(t: Tools, args: Arguments, components: seq<Component>): Json
    requires Suits(components)
  {
    SuitsSorted(components);
    Object(ManifestFields(t, args, Entries(t, Sort(components))))
  }

  lemma PayloadIs(t: Tools, args: Arguments, components: seq<Component>)
    requires Suits(components)
    ensures AllRegular(Sort(components))
    ensures Payload(t, args, components, InnerOf(t, args, components), PlainPayload(t, args, Sort(components)))
  {
    hide SaysAll, Sort, ManifestFields, Entries, PayloadOf, TarEntries, Suits, InNameOrder, AllRegular;
    SuitsSorted(components);
    AllSaid(t, args, Sort(components));
    EntriesPlain(t, args, components, Sort(components), InnerOf(t, args, components));
  }

  lemma PlacedWrites(t: Tools, dir: Directory, archive: string, staged: Staged)
    requires Vacant(dir, archive)
    ensures Writes(t, dir, Placed(dir, PointItems(t, archive, staged)), archive, staged.cipher, staged.outer)
  {
    var items := PointItems(t, archive, staged);
    assert ToSet(NamesOf(items)) == {archive, archive + ".manifest.json", archive + ".sha256"} by {
      PointNames(t, archive, staged);
    }
    hide Placed, NamesOf, PointItems, Vacant, ToSet;
    RoundTrip.PointFresh(t, dir, archive, staged);
    RoundTrip.PointContents(t, dir, archive, staged);
    PlacedContents(dir, items);
  }

  lemma PointNames(t: Tools, archive: string, staged: Staged)
    ensures ToSet(NamesOf(PointItems(t, archive, staged))) == {archive, archive + ".manifest.json", archive + ".sha256"}
  {
    var names := NamesOf(PointItems(t, archive, staged));
    assert names[0] == archive && names[1] == archive + ".manifest.json" && names[2] == archive + ".sha256";
  }

  lemma StagedPoint(t: Tools, args: Arguments, components: seq<Component>)
    requires args.recipient.Regular? && Suits(components) && AllRegular(Sort(components))
    requires Stage(t, args, Sort(components)).Ok?
    ensures var staged := Stage(t, args, Sort(components)).value;
      && t.encrypt(args.recipient.data, args.nonce, PlainPayload(t, args, Sort(components))) == Some(staged.cipher)
      && Seals(t, args.archive, staged.cipher, InnerOf(t, args, components), staged.outer)
  {
    var sorted := Sort(components);
    RoundTrip.StagedOuter(t, args, sorted);
    OuterSeals(t, args, Entries(t, sorted), Stage(t, args, sorted).value.cipher);
    hide Stage, Seals, Sort, Suits, AllRegular, PlainPayload, RoundTrip.OuterJson, ManifestFields, Entries;
  }

  /**
   * A point is packed exactly as the arguments say: from its creation time and source to each component's
   * name, digest and size, and each in its place.
   */
  lemma PackedExactly(t: Tools, dir: Directory, args: Arguments, components: seq<Component>, faults: seq<Fault>)
    requires |faults| == 3 && PackInto(t, dir, args, components, faults).1.Ok?
    ensures exists inner, outer, plain, cipher ::
      && args.recipient.Regular? && Payload(t, args, components, inner, plain)
      && t.encrypt(args.recipient.data, args.nonce, plain) == Some(cipher)
      && Seals(t, args.archive, cipher, inner, outer)
      && Writes(t, dir, PackInto(t, dir, args, components, faults).0, args.archive, cipher, outer)
  {
    hide *;
    RoundTrip.PackedParts(t, dir, args, components, faults);
    SuitsExactly(components);
    SuitsSorted(components);
    var staged := Stage(t, args, Sort(components)).value;
    PayloadIs(t, args, components);
    StagedPoint(t, args, components);
    PlacedWrites(t, dir, args.archive, staged);
  }

  lemma TarredOnce(t: Tools, sorted: seq<Component>, inner: Json, entries: seq<(string, string)>)
    requires AllRegular(sorted) && Tarred(t, sorted, inner, entries)
    ensures entries == TarEntries(t, inner, sorted)
  {
    var expected := TarEntries(t, inner, sorted);
    hide TarEntries;
    forall k | 0 <= k < |entries|
      ensures entries[k] == expected[k]
    {
      if k > 0 {
        assert entries[(k - 1) + 1] == expected[(k - 1) + 1];
      }
    }
  }

  lemma PayloadOnly(t: Tools, args: Arguments, components: seq<Component>, inner: Json, plain: string)
    requires Suits(components) && Payload(t, args, components, inner, plain)
    ensures AllRegular(Sort(components)) && inner == InnerOf(t, args, components)
    ensures plain == PlainPayload(t, args, Sort(components))
  {
    hide Suits, SaysAll, InNameOrder, Tarred, Sort, AllRegular, TarEntries, ManifestFields, Entries, Acceptable,
         NoDuplicates;
    SuitsSorted(components);
    SuitsExactly(components);
    var sorted: seq<Component> :| PayloadOf(t, args, components, sorted, inner, plain);
    assert NoDuplicates(Names(components)) by {
      AcceptableDistinct(components);
    }
    SortIsOrder(components, sorted);
    AllSaid(t, args, sorted);
    SaidOnce(t, args, sorted, inner, InnerOf(t, args, components));
    var entries :| Tarred(t, sorted, inner, entries) && plain == t.writeTar(entries);
    TarredOnce(t, sorted, inner, entries);
  }

  lemma AcceptableDistinct(components: seq<Component>)
    requires Acceptable(components)
    ensures NoDuplicates(Names(components))
  {
  }

  /** The arguments leave nothing open in a manifest. */
  lemma SaidOnce(t: Tools, args: Arguments, sorted: seq<Component>, a: Json, b: Json)
    requires SaysAll(t, args, sorted, a) && SaysAll(t, args, sorted, b)
    ensures a == b
  {
    SaidOncePart(args, Part(a, Source), Part(b, Source));
    var created := Part(a, CreatedUtc).s;
    ChosenExactly(args.created, args.now, created);
    ChosenExactly(args.created, args.now, Part(b, CreatedUtc).s);
    SaidOnceWindow(args, created, Part(a, Consistency), Part(b, Consistency));
    SaidOnceComponents(t, sorted, Part(a, Components), Part(b, Components));
    SaidOnceEncryption(args, Part(a, Encryption), Part(b, Encryption));
    hide SaysSource, SaysEncryption, SaysWindow, SaysComponents, Chosen, OrElse;
    forall k | k in a.fields
      ensures a.fields[k] == b.fields[k]
    {
      assert Part(a, k) == a.fields[k] && Part(b, k) == b.fields[k];
    }
    assert a.fields == b.fields;
  }

  lemma SaidOncePart(args: Arguments, a: Json, b: Json)
    requires SaysSource(args, a) && SaysSource(args, b)
    ensures a == b
  {
    assert a.fields == b.fields;
  }

  lemma SaidOnceEncryption(args: Arguments, a: Json, b: Json)
    requires SaysEncryption(args, a) && SaysEncryption(args, b)
    ensures a == b
  {
    assert a.fields == b.fields;
  }

  lemma SaidOnceWindow(args: Arguments, created: string, a: Json, b: Json)
    requires SaysWindow(args, created, a) && SaysWindow(args, created, b)
    ensures a == b
  {
    assert a.fields == b.fields;
  }

  lemma SaidOnceFile(t: Tools, a: Json, b: Json, name: string, data: string)
    requires SaysFile(t, a, name, data) && SaysFile(t, b, name, data)
    ensures a == b
  {
    assert a.fields == b.fields;
  }

  lemma SaidOnceComponents(t: Tools, sorted: seq<Component>, a: Json, b: Json)
    requires SaysComponents(t, sorted, a) && SaysComponents(t, sorted, b)
    ensures a == b
  {
    forall i | 0 <= i < |sorted|
      ensures a.items[i] == b.items[i]
    {
      SaidOnceFile(t, a.items[i], b.items[i], sorted[i].name, sorted[i].source.data);
    }
    hide SaysFile;
    assert a.items == b.items;
  }

  /** pack succeeds exactly when it admits its arguments, can build the manifest and encrypt, and nothing fails. */
  lemma PacksExactly(t: Tools, dir: Directory, args: Arguments, components: seq<Component>, faults: seq<Fault>)
    requires |faults| == 3
    ensures PackInto(t, dir, args, components, faults).1.Ok?
            <==> && Admits(dir, args, components) && Builds(t, args)
                 && (exists inner, plain ::
                       && Payload(t, args, components, inner, plain)
                       && t.encrypt(args.recipient.data, args.nonce, plain) != None)
                 && faults == [Clean, Clean, Clean]
  {
    RoundTrip.PackSucceedsExactly(t, dir, args, components, faults);
    AdmitsExactly(dir, args, components);
    BuildsExactly(t, args);
    assert FirstFault(faults) == 3 <==> faults == [Clean, Clean, Clean];
    hide Admitted, Builds, Buildable, FirstFault, PackInto, PlainPayload, Payload, Suits, KeepsApart;
    if Admits(dir, args, components) {
      PayloadIs(t, args, components);
      if inner, plain :|
        Payload(t, args, components, inner, plain) && t.encrypt(args.recipient.data, args.nonce, plain) != None {
        PayloadOnly(t, args, components, inner, plain);
      }
    }
  }
}
