/** What unpack accepts and restores, member by member. */
module RestoredPoints {
  import opened Common
  import opened Manifests
  import opened RecoveryPoint
  import opened Unpacking
  import opened VerifiedPoints
  import RT = RoundTrip

  /** The inner manifest: the outer one without the archive's own entry. */
  predicate Without(outer: Json, inner: Json) {
    && outer.Object? && inner.Object? && inner.fields.Keys == outer.fields.Keys - {EncryptedArchive}
    && forall k :: k in inner.fields ==> inner.fields[k] == outer.fields[k]
  }

  /** Entry i of the component list. */
  function Listed(outer: Json, i: nat): Json
    requires i < Count(outer)
  {
    Part(outer, Components).items[i]
  }

  function Count(outer: Json): nat {
    if Part(outer, Components).List? then |Part(outer, Components).items| else 0
  }

  predicate NameListed(outer: Json, name: string) {
    exists i: nat :: i < Count(outer) && Part(Listed(outer, i), Name) == Text(name)
  }

  /** A member holds what its entry says. */
  predicate Matches(t: Tools, m: Member, entry: Json) {
    && Part(entry, Name) == Text(m.name) && Part(entry, Size) == Int(m.size)
    && m.size == |m.data| && Part(entry, Sha256) == Text(t.sha256(m.data))
  }

  predicate Supplied(t: Tools, members: seq<Member>, entry: Json) {
    exists k :: 0 <= k < |members| && Matches(t, members[k], entry)
  }

  /** One member is the inner manifest, and reads as it should. */
  ghost predicate ManifestIn(t: Tools, outer: Json, members: seq<Member>) {
    exists k, inner :: 0 <= k < |members| && members[k].name == "manifest.json"
      && t.parseJson(members[k].data) == Some(inner) && Without(outer, inner) && Conforms(t, inner, false)
  }

  predicate AllRegular(members: seq<Member>) {
    forall k :: 0 <= k < |members| ==> members[k].regular && 0 <= members[k].size
  }

  predicate AllDifferent(members: seq<Member>) {
    forall i, k :: 0 <= i < k < |members| ==> members[i].name != members[k].name
  }

  predicate OnlyListed(outer: Json, members: seq<Member>) {
    forall k :: 0 <= k < |members| ==> members[k].name == "manifest.json" || NameListed(outer, members[k].name)
  }

  predicate AllSupplied(t: Tools, outer: Json, members: seq<Member>) {
    forall i: nat :: i < Count(outer) ==> Supplied(t, members, Listed(outer, i))
  }

  /**
   * The members of a tar archive that restore a point: regular files, no name twice, the inner manifest and
   * exactly the listed components, each of its size and digest.
   */
  ghost predicate Restores(t: Tools, outer: Json, members: seq<Member>) {
    && AllRegular(members) && AllDifferent(members) && OnlyListed(outer, members) && ManifestIn(t, outer, members)
    && AllSupplied(t, outer, members)
  }

  /** The files restored: one a member, with its bytes. */
  predicate Unpacked(members: seq<Member>, files: Files) {
    && (forall n :: n in files ==> exists k :: 0 <= k < |members| && members[k].name == n)
    && forall k :: 0 <= k < |members| ==> members[k].name in files && files[members[k].name] == members[k].data
  }

  lemma WithoutExactly(outer: Json, inner: Json)
    requires outer.Object?
    ensures Without(outer, inner) <==> inner == Inner(outer)
  {
    if Without(outer, inner) {
      assert inner.fields == Inner(outer).fields;
    }
  }

  lemma FilesOnce(members: seq<Member>, a: Files, b: Files)
    requires Unpacked(members, a) && Unpacked(members, b)
    ensures a == b
  {
    forall n
      ensures n in a <==> n in b
      ensures n in a && n in b ==> a[n] == b[n]
    {
      if n in a {
        var k :| 0 <= k < |members| && members[k].name == n;
      }
      if n in b {
        var k :| 0 <= k < |members| && members[k].name == n;
      }
    }
    assert a.Keys == b.Keys;
  }

  lemma NameAt(members: seq<Member>, n: string)
    requires n in MemberNames(members)
    ensures exists k :: 0 <= k < |members| && members[k].name == n
  {
    var names := MemberNames(members);
    var k :| 0 <= k < |names| && names[k] == n;
    assert members[k].name == n;
  }

  lemma ExtractedUnpacked(members: seq<Member>)
    requires NoDuplicates(MemberNames(members))
    ensures Unpacked(members, Extracted(members))
  {
    hide Find, MemberNames, NoDuplicates;
    forall n | n in Extracted(members)
      ensures exists k :: 0 <= k < |members| && members[k].name == n
    {
      NameAt(members, n);
    }
    forall k | 0 <= k < |members|
      ensures members[k].name in Extracted(members) && Extracted(members)[members[k].name] == members[k].data
    {
      FindDistinct(members, k);
    }
  }

  lemma ExtractedExactly(members: seq<Member>, files: Files)
    requires NoDuplicates(MemberNames(members))
    ensures Unpacked(members, files) <==> files == Extracted(members)
  {
    hide *;
    ExtractedUnpacked(members);
    if Unpacked(members, files) {
      FilesOnce(members, files, Extracted(members));
    }
  }

  lemma InnerOne(t: Tools, inner: Json, outer: Json)
    requires outer.Object?
    ensures CheckManifest(t, inner, false).Ok? && inner == Inner(outer)
            <==> Without(outer, inner) && Conforms(t, inner, false)
  {
    hide *;
    AcceptedExactly(t, inner, false);
    WithoutExactly(outer, inner);
    AcceptedIsGiven(t, inner, false);
  }

  /** A text that reads as the inner manifest it should be. */
  ghost predicate ReadsInner(t: Tools, bytes: string, outer: Json) {
    exists inner :: t.parseJson(bytes) == Some(inner) && Without(outer, inner) && Conforms(t, inner, false)
  }

  lemma InnerExactly(t: Tools, bytes: string, outer: Json)
    requires outer.Object?
    ensures InnerVerdict(t, bytes, outer).Ok? <==> ReadsInner(t, bytes, outer)
  {
    hide CheckManifest, Conforms, Without, Inner;
    if t.parseJson(bytes).Some? {
      InnerOne(t, t.parseJson(bytes).value, outer);
    }
  }

  lemma AcceptedIsGiven(t: Tools, j: Json, outer: bool)
    ensures CheckManifest(t, j, outer).Ok? ==> CheckManifest(t, j, outer) == Ok(j)
  {
    hide CommonVerdict, ValidArchive;
  }

  lemma ListedExactly(outer: Json, name: string)
    requires outer.Object? && ValidEach(EntriesOf(outer))
    ensures Count(outer) == |EntriesOf(outer)|
    ensures forall i: nat :: i < Count(outer) ==> Listed(outer, i) == EntriesOf(outer)[i]
    ensures NameListed(outer, name) <==> name in ComponentNames(EntriesOf(outer))
  {
    var entries := EntriesOf(outer);
    var names := ComponentNames(entries);
    forall i: nat | i < |entries|
      ensures Part(entries[i], Name) == Text(names[i])
    {
      EntryNames(entries, i);
    }
    hide ComponentNames, ValidEach;
    if name in names {
      var i :| 0 <= i < |names| && names[i] == name;
      assert Part(Listed(outer, i), Name) == Text(name);
    }
  }

  lemma MatchesExactly(t: Tools, m: Member, entry: Json)
    requires ValidComponent(entry)
    ensures Matches(t, m, entry) <==> m.name == ComponentName(entry) && MemberMatches(t, m, entry)
  {
    hide IsHex, Allowed, SafeName;
  }

  lemma SuppliedExactly(t: Tools, members: seq<Member>, entry: Json)
    requires NoDuplicates(MemberNames(members)) && ValidComponent(entry)
    ensures Supplied(t, members, entry)
            <==> && ComponentName(entry) in MemberNames(members)
                 && MemberMatches(t, Find(members, ComponentName(entry)), entry)
  {
    hide Find, MemberNames, NoDuplicates, ValidComponent, ComponentName, Matches, MemberMatches;
    forall k | 0 <= k < |members|
      ensures Matches(t, members[k], entry) <==>
        members[k].name == ComponentName(entry) && MemberMatches(t, members[k], entry)
      ensures members[k].name in MemberNames(members) && Find(members, members[k].name) == members[k]
    {
      MatchesExactly(t, members[k], entry);
      FindDistinct(members, k);
    }
    if ComponentName(entry) in MemberNames(members) {
      NameAt(members, ComponentName(entry));
    }
  }

  // ----- the whole payload -----

  lemma MembersDistinct(members: seq<Member>)
    ensures NoDuplicates(MemberNames(members)) <==> AllDifferent(members)
  {
    assert forall i :: 0 <= i < |members| ==> MemberNames(members)[i] == members[i].name;
  }

  lemma FoundNamed(members: seq<Member>, name: string)
    requires NoDuplicates(MemberNames(members))
    ensures name in MemberNames(members) <==> exists k :: 0 <= k < |members| && members[k].name == name
    ensures forall k :: 0 <= k < |members| && members[k].name == name ==>
      name in MemberNames(members) && Find(members, name) == members[k]
  {
    hide Find, MemberNames, NoDuplicates;
    forall k | 0 <= k < |members|
      ensures members[k].name in MemberNames(members) && Find(members, members[k].name) == members[k]
    {
      FindDistinct(members, k);
    }
    if name in MemberNames(members) {
      NameAt(members, name);
    }
  }

  lemma InnerNamed(members: seq<Member>)
    requires NoDuplicates(MemberNames(members))
    ensures "manifest.json" in MemberNames(members)
            <==> exists k :: 0 <= k < |members| && members[k].name == "manifest.json"
    ensures forall k :: 0 <= k < |members| && members[k].name == "manifest.json" ==>
      "manifest.json" in MemberNames(members) && Find(members, "manifest.json") == members[k]
  {
    hide *;
    FoundNamed(members, "manifest.json");
  }

  /** What the code asks of the members it reads. */
  ghost predicate Accepts(t: Tools, outer: Json, members: seq<Member>)
    requires outer.Object? && ValidEach(EntriesOf(outer))
  {
    && HeadersOk(members) && InnerVerdict(t, Find(members, InnerName()).data, outer).Ok?
    && MembersListed(members, EntriesOf(outer)) && EachMatches(t, members, EntriesOf(outer))
  }

  lemma NamesMeet(names: seq<string>, listed: seq<string>)
    requires NoDuplicates(names) && "manifest.json" in names && forall n :: n in listed ==> n in names
    ensures var expected := {"manifest.json"} + ToSet(listed);
      ToSet(names) == expected && |names| == |expected|
      <==> forall n :: n in names ==> n == "manifest.json" || n in listed
  {
    SetSize(names);
    hide NoDuplicates;
    var expected := {"manifest.json"} + ToSet(listed);
    if forall n :: n in names ==> n == "manifest.json" || n in listed {
      assert ToSet(names) == expected;
    }
    assert forall n :: n in names <==> n in ToSet(names);
  }

  lemma NamesOfMembers(members: seq<Member>)
    ensures forall n :: n in MemberNames(members) <==> exists k :: 0 <= k < |members| && members[k].name == n
  {
    forall n | n in MemberNames(members)
      ensures exists k :: 0 <= k < |members| && members[k].name == n
    {
      NameAt(members, n);
    }
    assert forall k :: 0 <= k < |members| ==> MemberNames(members)[k] == members[k].name;
  }

  /** The names of the listed components are among the members' names. */
  predicate Present(members: seq<Member>, outer: Json)
    requires outer.Object? && ValidEach(EntriesOf(outer))
  {
    forall i :: 0 <= i < |EntriesOf(outer)| ==> ComponentName(EntriesOf(outer)[i]) in MemberNames(members)
  }

  lemma PresentNames(members: seq<Member>, outer: Json)
    requires outer.Object? && ValidEach(EntriesOf(outer)) && Present(members, outer)
    ensures forall n :: n in ComponentNames(EntriesOf(outer)) ==> n in MemberNames(members)
  {
    var entries, listed := EntriesOf(outer), ComponentNames(EntriesOf(outer));
    hide ComponentNames, ComponentName, MemberNames, EntriesOf, ValidEach;
    forall n | n in listed
      ensures n in MemberNames(members)
    {
      var i :| 0 <= i < |listed| && listed[i] == n;
      assert ComponentName(entries[i]) in MemberNames(members);
    }
  }

  lemma OnlyListedBy(members: seq<Member>, outer: Json, names: seq<string>, listed: seq<string>)
    requires forall n :: n in names <==> exists k :: 0 <= k < |members| && members[k].name == n
    requires forall n :: NameListed(outer, n) <==> n in listed
    ensures OnlyListed(outer, members) <==> forall n :: n in names ==> n == "manifest.json" || n in listed
  {
    hide NameListed;
  }

  lemma ListedNames(members: seq<Member>, outer: Json)
    requires outer.Object? && ValidEach(EntriesOf(outer)) && NoDuplicates(MemberNames(members))
    requires "manifest.json" in MemberNames(members) && Present(members, outer)
    ensures MembersListed(members, EntriesOf(outer)) <==> OnlyListed(outer, members)
  {
    var names, listed := MemberNames(members), ComponentNames(EntriesOf(outer));
    hide MemberNames, ComponentNames, NoDuplicates, NameListed, ValidEach, EntriesOf, ToSet, Present, OnlyListed;
    forall name
      ensures NameListed(outer, name) <==> name in listed
    {
      ListedExactly(outer, name);
    }
    PresentNames(members, outer);
    NamesMeet(names, listed);
    NamesOfMembers(members);
    OnlyListedBy(members, outer, names, listed);
  }

  lemma EachSupplied(t: Tools, members: seq<Member>, outer: Json)
    requires outer.Object? && ValidEach(EntriesOf(outer)) && NoDuplicates(MemberNames(members))
    ensures EachMatches(t, members, EntriesOf(outer))
            <==> AllSupplied(t, outer, members)
  {
    var entries := EntriesOf(outer);
    ListedExactly(outer, "");
    forall i | 0 <= i < |entries|
      ensures Supplied(t, members, entries[i])
              <==> && ComponentName(entries[i]) in MemberNames(members)
                   && MemberMatches(t, Find(members, ComponentName(entries[i])), entries[i])
    {
      SuppliedExactly(t, members, entries[i]);
    }
    hide MemberNames, Find, ComponentName, MemberMatches, Supplied, EntriesOf, NoDuplicates, ValidComponent, Listed;
  }

  lemma NamesAllowed(names: seq<string>)
    ensures PayloadNames(names)
            <==> NoDuplicates(names) && "manifest.json" in names
                 && forall k :: 0 <= k < |names| ==> names[k] == "manifest.json" || names[k] in Allowed()
  {
    hide NoDuplicates, Allowed, SafeName;
    forall k | 0 <= k < |names| && (names[k] == "manifest.json" || names[k] in Allowed())
      ensures SafeName(names[k])
    {
      if names[k] in Allowed() {
        AllowedSafe(names[k]);
      } else {
        InnerSafe();
      }
    }
  }

  lemma InnerSafe()
    ensures SafeName("manifest.json")
  {
    RT.SafeManifestName();
  }

  predicate AllAllowed(members: seq<Member>) {
    forall k :: 0 <= k < |members| ==> members[k].name == "manifest.json" || members[k].name in Allowed()
  }

  lemma HeadersExactly(members: seq<Member>)
    ensures HeadersOk(members)
            <==> && AllRegular(members) && NoDuplicates(MemberNames(members))
                 && "manifest.json" in MemberNames(members) && AllAllowed(members)
  {
    NamesAllowed(MemberNames(members));
    hide MemberNames, NoDuplicates, Allowed, PayloadNames;
  }

  /** The listed components of an accepted manifest have allowed names. */
  lemma ListedAllowed(outer: Json, name: string)
    requires outer.Object? && ValidEach(EntriesOf(outer)) && NameListed(outer, name)
    ensures name in Allowed()
  {
    ListedExactly(outer, name);
    var i: nat :| i < Count(outer) && Part(Listed(outer, i), Name) == Text(name);
    assert ValidComponent(EntriesOf(outer)[i]);
    hide Allowed;
  }

  lemma MatchesPresent(t: Tools, members: seq<Member>, outer: Json)
    requires outer.Object? && ValidEach(EntriesOf(outer)) && EachMatches(t, members, EntriesOf(outer))
    ensures Present(members, outer)
  {
    hide EntriesOf, MemberNames, ComponentName, Find, MemberMatches;
  }

  lemma ListedAreAllowed(outer: Json, members: seq<Member>)
    requires outer.Object? && ValidEach(EntriesOf(outer)) && OnlyListed(outer, members)
    ensures AllAllowed(members)
  {
    hide NameListed, Allowed, ValidEach, EntriesOf;
    forall k | 0 <= k < |members| && NameListed(outer, members[k].name)
      ensures members[k].name in Allowed()
    {
      ListedAllowed(outer, members[k].name);
    }
  }

  /** The inner manifest is there, and reads as it should. */
  lemma InnerFound(t: Tools, outer: Json, members: seq<Member>)
    requires outer.Object? && NoDuplicates(MemberNames(members))
    ensures ManifestIn(t, outer, members)
            <==> && "manifest.json" in MemberNames(members)
                 && InnerVerdict(t, Find(members, "manifest.json").data, outer).Ok?
  {
    InnerNamed(members);
    hide MemberNames, Find, NoDuplicates, InnerVerdict, Without, Conforms;
    if "manifest.json" in MemberNames(members) {
      InnerExactly(t, Find(members, "manifest.json").data, outer);
    }
  }

  lemma AcceptsExactly(t: Tools, outer: Json, members: seq<Member>)
    requires outer.Object? && ValidEach(EntriesOf(outer))
    ensures Accepts(t, outer, members) <==> Restores(t, outer, members)
  {
    HeadersExactly(members);
    MembersDistinct(members);
    hide HeadersOk, MembersListed, EachMatches, InnerVerdict, Find, ManifestIn, EntriesOf, ValidEach, MemberNames,
         NoDuplicates, AllRegular, AllDifferent, AllAllowed, OnlyListed, AllSupplied, Present;
    if NoDuplicates(MemberNames(members)) {
      InnerFound(t, outer, members);
      EachSupplied(t, members, outer);
      if "manifest.json" in MemberNames(members) && EachMatches(t, members, EntriesOf(outer)) {
        MatchesPresent(t, members, outer);
        ListedNames(members, outer);
      }
    }
    if OnlyListed(outer, members) {
      ListedAreAllowed(outer, members);
    }
  }

  // ----- unpack -----

  /** An operator who names a part of the source gets no other. */
  predicate AsExpected(given: Option<string>, m: Json, key: Field) {
    given != None ==> Part(Part(m, Source), key) == Text(given.value)
  }

  lemma ExpectedExactly(m: Json, e: Expected)
    ensures ExpectedSource(m, e)
            <==> && AsExpected(e.instance, m, InstanceSlug) && AsExpected(e.database, m, DatabaseName)
                 && AsExpected(e.environment, m, EnvironmentId)
  {
  }

  lemma PayloadAccepts(t: Tools, plain: string, outer: Json, members: seq<Member>)
    requires outer.Object? && ValidEach(EntriesOf(outer)) && t.readTar(plain) == Some(members)
    ensures Payload(t, plain, outer) == (if Accepts(t, outer, members) then Ok(Extracted(members))
                                         else Payload(t, plain, outer))
    ensures Payload(t, plain, outer).Ok? ==> Accepts(t, outer, members)
  {
    hide HeadersOk, MembersListed, EachMatches, InnerVerdict, Find, EntriesOf, ValidEach, Extracted;
  }

  lemma AcceptsDistinct(t: Tools, outer: Json, members: seq<Member>)
    requires outer.Object? && ValidEach(EntriesOf(outer)) && Accepts(t, outer, members)
    ensures NoDuplicates(MemberNames(members))
  {
    hide MembersListed, EachMatches, InnerVerdict, Find, EntriesOf, ValidEach, MemberNames, NoDuplicates;
  }

  lemma PayloadOf(t: Tools, plain: string, outer: Json, members: seq<Member>, files: Files)
    requires outer.Object? && ValidEach(EntriesOf(outer)) && t.readTar(plain) == Some(members)
    ensures Payload(t, plain, outer) == Ok(files) <==> Restores(t, outer, members) && Unpacked(members, files)
  {
    hide *;
    PayloadAccepts(t, plain, outer, members);
    AcceptsExactly(t, outer, members);
    if Accepts(t, outer, members) {
      AcceptsDistinct(t, outer, members);
      ExtractedExactly(members, files);
    }
  }

  lemma PayloadNone(t: Tools, plain: string, outer: Json)
    requires outer.Object? && ValidEach(EntriesOf(outer)) && t.readTar(plain) == None
    ensures Payload(t, plain, outer) == Err(Escaped)
  {
    hide EntriesOf, ValidEach;
  }

  lemma PayloadExactly(t: Tools, plain: string, outer: Json, files: Files)
    requires outer.Object? && ValidEach(EntriesOf(outer))
    ensures Payload(t, plain, outer) == Ok(files)
            <==> exists members ::
                   t.readTar(plain) == Some(members) && Restores(t, outer, members) && Unpacked(members, files)
  {
    hide *;
    if t.readTar(plain).Some? {
      PayloadOf(t, plain, outer, t.readTar(plain).value, files);
    } else {
      PayloadNone(t, plain, outer);
    }
  }

  /**
   * unpack restores some files exactly when the point verifies with a manifest of the expected source, the
   * destination is vacant, and the archive decrypts to a tar archive of just the members that manifest lists.
   */
  lemma UnpacksExactly(t: Tools, dir: Directory, archive: string, identity: string, expected: Expected, vacant: bool,
                       files: Files)
    ensures Unpack(t, dir, archive, identity, expected, vacant) == Ok(files)
            <==> exists m, data, plain, members ::
                   && VerifyOuter(t, dir, archive) == Ok(m)
                   && AsExpected(expected.instance, m, InstanceSlug) && AsExpected(expected.database, m, DatabaseName)
                   && AsExpected(expected.environment, m, EnvironmentId) && vacant
                   && Holds(dir, archive, data) && t.decrypt(identity, data) == Some(plain)
                   && t.readTar(plain) == Some(members) && Restores(t, m, members) && Unpacked(members, files)
  {
    hide CheckManifest, Restores, Unpacked, Payload, ValidEach, EntriesOf, AsExpected, ExpectedSource, VerifyOuter;
    if VerifyOuter(t, dir, archive).Ok? {
      var m := VerifyOuter(t, dir, archive).value;
      VerifiedIsComplete(t, dir, archive);
      AcceptedEntries(t, m);
      ExpectedExactly(m, expected);
      var decrypted := t.decrypt(identity, dir[archive].data);
      if decrypted.Some? {
        PayloadExactly(t, decrypted.value, m, files);
      }
    }
  }
}
