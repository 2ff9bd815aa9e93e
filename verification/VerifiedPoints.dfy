/** What verification accepts, in the words of the published format: documents, digests and file contents. */
module VerifiedPoints {
  import opened Common
  import opened Manifests
  import opened RecoveryPoint
  import Words
  import Decimal

  // ----- the words of the format -----

  /** Lower-case hexadecimal text of a length. */
  predicate Hex(s: string, length: nat) {
    |s| == length && forall k :: 0 <= k < |s| ==> s[k] in "0123456789abcdef"
  }

  /** A text that reads as a moment. */
  predicate Reads(t: Tools, j: Json, moment: nat) {
    j.Text? && j.s != "" && t.parseUtc(j.s) == Some(moment)
  }

  /** The code points that count as white space. */
  const SPACES: set<int> :=
    {9, 10, 11, 12, 13, 28, 29, 30, 31, 32, 0x85, 0xA0, 0x1680, 0x2000, 0x2001, 0x2002, 0x2003, 0x2004, 0x2005,
     0x2006, 0x2007, 0x2008, 0x2009, 0x200A, 0x2028, 0x2029, 0x202F, 0x205F, 0x3000}

  lemma SpacesExactly(c: char)
    ensures IsSpace(c) <==> c as int in SPACES
  {
  }

  predicate Filled(j: Json) {
    j.Text? && exists k :: 0 <= k < |j.s| && j.s[k] as int !in SPACES
  }

  predicate DigestText(j: Json) {
    match j
    case Text(s) => Hex(s, 64)
    case Int(n) => 0 <= n && |Decimal.Print(n)| == 64
    case _ => false
  }

  predicate Dotted(s: string, a: string, b: string, c: string) {
    s == a + "." + b + "." + c && Decimal.IsNumber(a) && Decimal.IsNumber(b) && Decimal.IsNumber(c)
  }

  ghost predicate VersionText(s: string) {
    exists a, b, c :: Dotted(s, a, b, c)
  }

  predicate NamesSource(j: Json) {
    && j.Object? && j.fields.Keys == {InstanceSlug, DatabaseName, EnvironmentId, ProductVersion, ReleaseSha}
    && Filled(Part(j, InstanceSlug)) && Filled(Part(j, DatabaseName)) && Filled(Part(j, EnvironmentId))
    && Filled(Part(j, ProductVersion)) && Part(j, ReleaseSha).Text? && Hex(Part(j, ReleaseSha).s, 40)
  }

  ghost predicate NamesEncryption(j: Json) {
    && j.Object? && j.fields.Keys == {Tool, Version, Mode}
    && Part(j, Tool) == Text("age") && Part(j, Mode) == Text("recipient-file")
    && Part(j, Version).Text? && VersionText(Part(j, Version).s)
  }

  /** Stopped, database, files, resumed: in this order, and the manifest no earlier than the last. */
  ghost predicate NamesWindow(t: Tools, j: Json, created: Json) {
    && j.Object? && j.fields.Keys == {Method, QuiesceStart, DatabaseSnapshot, FilestoreSnapshot, QuiesceEnd}
    && Part(j, Method) == Text("maintenance-write-stop")
    && exists stopped, database, files, resumed, moment ::
         && Reads(t, Part(j, QuiesceStart), stopped) && Reads(t, Part(j, DatabaseSnapshot), database)
         && Reads(t, Part(j, FilestoreSnapshot), files) && Reads(t, Part(j, QuiesceEnd), resumed)
         && Reads(t, created, moment)
         && stopped <= database <= files <= resumed <= moment
  }

  const NEEDED: seq<string> :=
    ["db.dump", "filestore.tar.gz", "environment_id", "runtime-lock.json", "deployment-manifest.json"]

  const OPTIONAL: seq<string> := ["active.pmql", "product-manifest.json"]

  predicate NamesComponent(j: Json) {
    && j.Object? && j.fields.Keys == {Name, Sha256, Size}
    && Part(j, Name).Text? && (Part(j, Name).s in NEEDED || Part(j, Name).s in OPTIONAL)
    && DigestText(Part(j, Sha256)) && Part(j, Size).Int? && 0 <= Part(j, Size).n
  }

  predicate NeededListed(items: seq<Json>) {
    forall n :: n in NEEDED ==> exists i :: 0 <= i < |items| && Part(items[i], Name) == Text(n)
  }

  /** Every needed name once, nothing twice, and no name beyond the list. */
  predicate NamesComponents(j: Json) {
    && j.List? && (forall i :: 0 <= i < |j.items| ==> NamesComponent(j.items[i]))
    && (forall i, k :: 0 <= i < k < |j.items| ==> Part(j.items[i], Name) != Part(j.items[k], Name))
    && NeededListed(j.items)
  }

  predicate NamesArchive(j: Json) {
    && j.Object? && j.fields.Keys == {Name, Sha256, Size}
    && Part(j, Name).Text? && '/' !in Part(j, Name).s
    && |".tar.age"| <= |Part(j, Name).s| && Part(j, Name).s[|Part(j, Name).s| - |".tar.age"|..] == ".tar.age"
    && DigestText(Part(j, Sha256)) && Part(j, Size).Int? && 1 <= Part(j, Size).n
  }

  /** An inner or an outer manifest of the published format, version 1. */
  ghost predicate Conforms(t: Tools, j: Json, outer: bool) {
    && j.Object?
    && j.fields.Keys
       == {SchemaVersion, FormatName, CreatedUtc, PointClass, Source, Encryption, Consistency, Components}
          + (if outer then {EncryptedArchive} else {})
    && Part(j, SchemaVersion) == Int(1) && Part(j, FormatName) == Text("pmqms-recovery-point-v1")
    && (Part(j, PointClass) == Text("intraday") || Part(j, PointClass) == Text("daily")
        || Part(j, PointClass) == Text("monthly"))
    && NamesSource(Part(j, Source)) && NamesEncryption(Part(j, Encryption))
    && NamesWindow(t, Part(j, Consistency), Part(j, CreatedUtc))
    && NamesComponents(Part(j, Components))
    && (outer ==> NamesArchive(Part(j, EncryptedArchive)))
  }

  // ----- part by part -----

  lemma HexExactly(s: string, length: nat)
    ensures IsHex(s, length) <==> Hex(s, length)
  {
    var digits := "0123456789abcdef";
    forall c: char
      ensures ('0' <= c <= '9' || 'a' <= c <= 'f') <==> c in digits
    {
      assert digits[0] == '0' && digits[1] == '1' && digits[2] == '2' && digits[3] == '3' && digits[4] == '4'
          && digits[5] == '5' && digits[6] == '6' && digits[7] == '7' && digits[8] == '8' && digits[9] == '9'
          && digits[10] == 'a' && digits[11] == 'b' && digits[12] == 'c' && digits[13] == 'd' && digits[14] == 'e'
          && digits[15] == 'f';
    }
  }

  lemma FilledExactly(j: Json)
    ensures Filled(j) <==> j.Text? && NonBlank(j.s)
  {
    forall c: char
      ensures IsSpace(c) <==> c as int in SPACES
    {
      SpacesExactly(c);
    }
    hide IsSpace, SPACES;
  }

  lemma HexFilled(s: string, length: nat)
    requires IsHex(s, length) && 0 < length
    ensures NonBlank(s)
  {
    assert !IsSpace(s[0]);
  }

  lemma ReleaseExactly(j: Json)
    ensures j.Text? && NonBlank(j.s) && IsHex(j.s, 40) <==> j.Text? && Hex(j.s, 40)
  {
    if j.Text? {
      HexExactly(j.s, 40);
      if IsHex(j.s, 40) {
        HexFilled(j.s, 40);
      }
    }
    hide IsHex, Hex, NonBlank;
  }

  lemma SourceParts(j: Json)
    requires j.Object? && j.fields.Keys == {InstanceSlug, DatabaseName, EnvironmentId, ProductVersion, ReleaseSha}
    ensures (forall k :: k in j.fields ==> j.fields[k].Text? && NonBlank(j.fields[k].s))
            <==> && Filled(j.fields[InstanceSlug]) && Filled(j.fields[DatabaseName]) && Filled(j.fields[EnvironmentId])
                 && Filled(j.fields[ProductVersion]) && Filled(j.fields[ReleaseSha])
  {
    forall v: Json
      ensures Filled(v) <==> v.Text? && NonBlank(v.s)
    {
      FilledExactly(v);
    }
    hide Filled, NonBlank;
  }

  lemma SourceExactly(j: Json)
    ensures ValidSource(j) <==> NamesSource(j)
  {
    if j.Object? && j.fields.Keys == {InstanceSlug, DatabaseName, EnvironmentId, ProductVersion, ReleaseSha} {
      SourceParts(j);
      ReleaseExactly(j.fields[ReleaseSha]);
      FilledExactly(j.fields[ReleaseSha]);
      hide Filled, NonBlank, IsHex, Hex;
    }
  }

  lemma VersionCut(s: string, i: nat, j: nat)
    requires i < j < |s| && s[i] == '.' && s[j] == '.'
    ensures s == s[..i] + "." + s[i + 1..j] + "." + s[j + 1..]
  {
    assert s == s[..i] + [s[i]] + s[i + 1..j] + [s[j]] + s[j + 1..];
  }

  lemma VersionJoin(s: string, a: string, b: string, c: string)
    requires s == a + "." + b + "." + c
    ensures var i, j := |a|, |a| + 1 + |b|;
      i < j < |s| && s[i] == '.' && s[j] == '.' && s[..i] == a && s[i + 1..j] == b && s[j + 1..] == c
  {
  }

  lemma VersionDotted(s: string, i: nat, j: nat)
    requires i < j < |s| && s[i] == '.' && s[j] == '.'
    requires Decimal.IsNumber(s[..i]) && Decimal.IsNumber(s[i + 1..j]) && Decimal.IsNumber(s[j + 1..])
    ensures VersionText(s)
  {
    hide Decimal.IsNumber;
    VersionCut(s, i, j);
    var a, b, c := s[..i], s[i + 1..j], s[j + 1..];
    assert Dotted(s, a, b, c);
    hide Dotted;
  }

  lemma VersionReads(s: string)
    requires IsVersion(s)
    ensures VersionText(s)
  {
    hide Decimal.IsNumber, VersionText;
    var i, j :| 0 <= i < j < |s| && s[i] == '.' && s[j] == '.'
      && Decimal.IsNumber(s[..i]) && Decimal.IsNumber(s[i + 1..j]) && Decimal.IsNumber(s[j + 1..]);
    VersionDotted(s, i, j);
  }

  lemma VersionWrites(s: string)
    requires VersionText(s)
    ensures IsVersion(s)
  {
    hide Decimal.IsNumber;
    var a, b, c :| Dotted(s, a, b, c);
    VersionJoin(s, a, b, c);
    VersionAt(s, |a|, |a| + 1 + |b|);
  }

  lemma VersionAt(s: string, i: nat, j: nat)
    requires i < j < |s| && s[i] == '.' && s[j] == '.'
    requires Decimal.IsNumber(s[..i]) && Decimal.IsNumber(s[i + 1..j]) && Decimal.IsNumber(s[j + 1..])
    ensures IsVersion(s)
  {
  }

  lemma VersionExactly(s: string)
    ensures IsVersion(s) <==> VersionText(s)
  {
    hide IsVersion, VersionText;
    if IsVersion(s) {
      VersionReads(s);
    }
    if VersionText(s) {
      VersionWrites(s);
    }
  }

  lemma NumberIsNoVersion(s: string)
    requires Decimal.IsNumber(s)
    ensures !IsVersion(s)
  {
  }

  lemma EncryptionExactly(j: Json)
    ensures ValidEncryption(j) <==> NamesEncryption(j)
  {
    var version := Part(j, Version);
    if version.Text? {
      VersionExactly(version.s);
    } else if version.Int? && 0 <= version.n {
      NumberIsNoVersion(Decimal.Print(version.n));
    } else {
      assert !IsVersion("");
    }
    hide IsVersion, VersionText, Decimal.Print;
  }

  lemma ReadsExactly(t: Tools, j: Json, moment: nat)
    ensures Stamp(t, j) == Some(moment) <==> Reads(t, j, moment)
  {
  }

  lemma WindowExactly(t: Tools, j: Json, created: Json)
    ensures Stamp(t, created).Some? && ValidConsistency(t, j, Stamp(t, created)) <==> NamesWindow(t, j, created)
  {
    forall k: Json, moment: nat
      ensures Stamp(t, k) == Some(moment) <==> Reads(t, k, moment)
    {
      ReadsExactly(t, k, moment);
    }
    hide Stamp, Reads;
    if Stamp(t, created).Some? && ValidConsistency(t, j, Stamp(t, created)) {
      var a, b := Stamp(t, j.fields[QuiesceStart]).value, Stamp(t, j.fields[DatabaseSnapshot]).value;
      var c, d := Stamp(t, j.fields[FilestoreSnapshot]).value, Stamp(t, j.fields[QuiesceEnd]).value;
      assert Reads(t, Part(j, QuiesceStart), a) && Reads(t, Part(j, DatabaseSnapshot), b)
          && Reads(t, Part(j, FilestoreSnapshot), c) && Reads(t, Part(j, QuiesceEnd), d)
          && Reads(t, created, Stamp(t, created).value);
    }
  }

  lemma DigestExactly(j: Json)
    ensures IsHex(PyStr(j), 64) <==> DigestText(j)
  {
    match j
    case Text(s) => HexExactly(s, 64);
    case Int(n) =>
    case _ =>
  }

  lemma AllowedExactly(n: string)
    ensures n in Allowed() <==> n in NEEDED || n in OPTIONAL
    ensures n in Required() <==> n in NEEDED
    ensures n in Allowed() ==> SafeName(n)
  {
    assert NEEDED[0] == "db.dump" && NEEDED[1] == "filestore.tar.gz" && NEEDED[2] == "environment_id"
        && NEEDED[3] == "runtime-lock.json" && NEEDED[4] == "deployment-manifest.json";
    assert OPTIONAL[0] == "active.pmql" && OPTIONAL[1] == "product-manifest.json";
    if n in Allowed() {
      AllowedSafe(n);
    }
  }

  lemma AllowedSafe(n: string)
    requires n in Allowed()
    ensures SafeName(n)
  {
  }

  lemma ComponentExactly(j: Json)
    ensures ValidComponent(j) <==> NamesComponent(j)
  {
    if j.Object? && Name in j.fields && j.fields[Name].Text? {
      AllowedExactly(j.fields[Name].s);
    }
    if j.Object? && Sha256 in j.fields {
      DigestExactly(j.fields[Sha256]);
    }
    hide IsHex, PyStr, DigestText, SafeName, Allowed;
  }

  lemma EachExactly(items: seq<Json>)
    ensures ValidEach(items) <==> forall i :: 0 <= i < |items| ==> NamesComponent(items[i])
  {
    forall i | 0 <= i < |items|
      ensures ValidComponent(items[i]) <==> NamesComponent(items[i])
    {
      ComponentExactly(items[i]);
    }
    hide ValidComponent, NamesComponent;
  }

  lemma ComponentsExactly(j: Json)
    ensures ValidComponents(j) <==> NamesComponents(j)
  {
    hide ValidEach, NamesComponent, NeededListed, Part, Required, ComponentNames, NoDuplicates, ToSet;
    if j.List? {
      EachExactly(j.items);
      if ValidEach(j.items) {
        EntriesExactly(j.items);
        NeededNotEmpty(j.items);
      }
    }
  }

  /** A list with the needed names has entries. */
  lemma NeededNotEmpty(items: seq<Json>)
    ensures NeededListed(items) ==> items != []
  {
    assert NEEDED[0] in NEEDED;
  }

  lemma EntryNames(items: seq<Json>, i: nat)
    requires ValidEach(items) && i < |items|
    ensures Part(items[i], Name) == Text(ComponentNames(items)[i])
  {
    assert ValidComponent(items[i]);
  }

  lemma DistinctExactly(items: seq<Json>, names: seq<string>)
    requires |names| == |items| && forall i :: 0 <= i < |items| ==> Part(items[i], Name) == Text(names[i])
    ensures NoDuplicates(names)
            <==> forall i, k :: 0 <= i < k < |items| ==> Part(items[i], Name) != Part(items[k], Name)
  {
    hide Part;
    if i, k :| 0 <= i < k < |items| && Part(items[i], Name) == Part(items[k], Name) {
      assert names[i] == names[k];
    }
  }

  lemma RequiredExactly(n: string)
    ensures n in Required() <==> n in NEEDED
  {
    AllowedExactly(n);
  }

  lemma NeededExactly(items: seq<Json>, names: seq<string>)
    requires |names| == |items| && forall i :: 0 <= i < |items| ==> Part(items[i], Name) == Text(names[i])
    ensures Required() <= ToSet(names) <==> NeededListed(items)
  {
    forall n: string
      ensures n in Required() <==> n in NEEDED
    {
      RequiredExactly(n);
    }
    hide Part, Required;
    if NeededListed(items) {
      forall n | n in Required()
        ensures n in ToSet(names)
      {
        var i :| 0 <= i < |items| && Part(items[i], Name) == Text(n);
        assert names[i] == n;
      }
    }
    if Required() <= ToSet(names) {
      forall n | n in NEEDED
        ensures exists i :: 0 <= i < |items| && Part(items[i], Name) == Text(n)
      {
        assert n in ToSet(names);
        var i :| 0 <= i < |names| && names[i] == n;
        assert Part(items[i], Name) == Text(n);
      }
    }
  }

  lemma EntriesExactly(items: seq<Json>)
    requires ValidEach(items)
    ensures NoDuplicates(ComponentNames(items))
            <==> forall i, k :: 0 <= i < k < |items| ==> Part(items[i], Name) != Part(items[k], Name)
    ensures Required() <= ToSet(ComponentNames(items)) <==> NeededListed(items)
  {
    forall i | 0 <= i < |items|
      ensures Part(items[i], Name) == Text(ComponentNames(items)[i])
    {
      EntryNames(items, i);
    }
    hide Part, ValidEach, ComponentNames, Required, NoDuplicates, NeededListed, ToSet;
    DistinctExactly(items, ComponentNames(items));
    NeededExactly(items, ComponentNames(items));
  }

  lemma ArchiveExactly(j: Json)
    ensures ValidArchive(j) <==> NamesArchive(j)
  {
    if j.Object? && Sha256 in j.fields {
      DigestExactly(j.fields[Sha256]);
    }
    if j.Object? && Name in j.fields && j.fields[Name].Text? {
      SuffixSafe(j.fields[Name].s);
    }
    hide IsHex, PyStr, DigestText, SafeName;
  }

  lemma SuffixSafe(s: string)
    ensures EndsWith(s, ".tar.age") ==> (SafeName(s) <==> '/' !in s)
  {
    if EndsWith(s, ".tar.age") {
      assert |s| >= 8;
    }
  }

  // ----- documents -----

  lemma BodyExactly(t: Tools, m: Json)
    ensures ValidBody(t, Part(m, CreatedUtc), Part(m, Source), Part(m, Encryption), Part(m, Consistency),
                      Part(m, Components))
            <==> && NamesSource(Part(m, Source)) && NamesEncryption(Part(m, Encryption))
                 && NamesWindow(t, Part(m, Consistency), Part(m, CreatedUtc)) && NamesComponents(Part(m, Components))
  {
    SourceExactly(Part(m, Source));
    EncryptionExactly(Part(m, Encryption));
    WindowExactly(t, Part(m, Consistency), Part(m, CreatedUtc));
    ComponentsExactly(Part(m, Components));
    hide ValidSource, ValidEncryption, ValidConsistency, ValidComponents, NamesSource, NamesEncryption, NamesWindow,
         NamesComponents, Stamp, Part;
  }

  lemma ClassExactly(j: Json)
    ensures j.Text? && j.s in Classes() <==> j == Text("intraday") || j == Text("daily") || j == Text("monthly")
  {
  }

  /** The validator accepts exactly the documents of the published format. */
  lemma AcceptedExactly(t: Tools, j: Json, outer: bool)
    ensures CheckManifest(t, j, outer) == Ok(j) <==> Conforms(t, j, outer)
  {
    BodyExactly(t, j);
    ClassExactly(Part(j, PointClass));
    ArchiveExactly(Part(j, EncryptedArchive));
    hide ValidBody, ValidArchive, NamesSource, NamesEncryption, NamesWindow, NamesComponents, NamesArchive, Classes;
    if HasKeys(j, COMMON_KEYS + if outer then {EncryptedArchive} else {}) {
      InnerParts(j);
    }
  }

  lemma InnerParts(j: Json)
    requires j.Object? && COMMON_KEYS <= j.fields.Keys
    ensures COMMON_KEYS <= Inner(j).fields.Keys && forall k :: k in COMMON_KEYS ==> Inner(j).fields[k] == Part(j, k)
  {
  }

  // ----- points -----

  /** The file of a name, as text. */
  predicate Holds(dir: Directory, name: string, text: string) {
    name in dir && dir[name] == Regular(text)
  }

  /** Manifest, archive and sidecar agree: the archive's own digest and size, and its own name. */
  ghost predicate Agrees(t: Tools, dir: Directory, archive: string, m: Json, data: string, sidecar: string) {
    && Holds(dir, archive, data) && Holds(dir, archive + ".sha256", sidecar)
    && Part(Part(m, EncryptedArchive), Name) == Text(archive)
    && Part(Part(m, EncryptedArchive), Sha256) == Text(t.sha256(data))
    && Part(Part(m, EncryptedArchive), Size) == Int(|data|)
    && Words.Split(sidecar) == [t.sha256(data), archive]
  }

  /** The three checks on archive and sidecar. */
  predicate Checked(t: Tools, dir: Directory, archive: string, entry: Json)
    requires ValidArchive(entry)
  {
    && IsFile(dir, archive) && IsFile(dir, ChecksumFile(archive))
    && ArchiveMatches(t, entry, archive, dir[archive].data)
    && ChecksumMatches(t, dir[ChecksumFile(archive)].data, archive, dir[archive].data)
  }

  lemma CheckedAgrees(t: Tools, dir: Directory, archive: string, m: Json)
    requires m.Object? && EncryptedArchive in m.fields && ValidArchive(m.fields[EncryptedArchive])
    requires Checked(t, dir, archive, m.fields[EncryptedArchive])
    ensures Agrees(t, dir, archive, m, dir[archive].data, dir[ChecksumFile(archive)].data)
  {
    hide IsHex, Words.Split;
    var line := Words.Split(dir[ChecksumFile(archive)].data);
    assert line == [line[0], line[1]];
  }

  lemma AgreesChecked(t: Tools, dir: Directory, archive: string, m: Json, data: string, sidecar: string)
    requires m.Object? && EncryptedArchive in m.fields && ValidArchive(m.fields[EncryptedArchive])
    requires Agrees(t, dir, archive, m, data, sidecar)
    ensures Checked(t, dir, archive, m.fields[EncryptedArchive])
  {
    DigestIsHex(m.fields[EncryptedArchive]);
    hide IsHex, Words.Split, SafeName, EndsWith;
  }

  lemma AgreesExactly(t: Tools, dir: Directory, archive: string, m: Json)
    requires CheckManifest(t, m, true) == Ok(m)
    ensures m.Object? && EncryptedArchive in m.fields && ValidArchive(m.fields[EncryptedArchive])
    ensures Checked(t, dir, archive, m.fields[EncryptedArchive])
            <==> exists data, sidecar :: Agrees(t, dir, archive, m, data, sidecar)
  {
    AcceptedOuter(t, m);
    hide CheckManifest, Checked, Agrees, ValidArchive;
    if data, sidecar :| Agrees(t, dir, archive, m, data, sidecar) {
      AgreesChecked(t, dir, archive, m, data, sidecar);
    }
    if Checked(t, dir, archive, m.fields[EncryptedArchive]) {
      CheckedAgrees(t, dir, archive, m);
    }
  }

  lemma DigestIsHex(entry: Json)
    requires ValidArchive(entry)
    ensures entry.fields[Sha256].Text? ==> IsHex(entry.fields[Sha256].s, 64)
  {
    hide IsHex;
  }

  /**
   * Verification accepts a point, with a manifest, exactly when that manifest is what its file reads as, has the
   * published format, and agrees with the archive and its sidecar on name, digest and size.
   */
  lemma VerifiedExactly(t: Tools, dir: Directory, archive: string, m: Json)
    ensures VerifyOuter(t, dir, archive) == Ok(m)
            <==> && (exists text :: Holds(dir, archive + ".manifest.json", text) && t.parseJson(text) == Some(m))
                 && Conforms(t, m, true)
                 && (exists data, sidecar :: Agrees(t, dir, archive, m, data, sidecar))
  {
    AcceptedExactly(t, m, true);
    hide Conforms;
    if CheckManifest(t, m, true) == Ok(m) {
      AgreesExactly(t, dir, archive, m);
    }
    hide Agrees, ArchiveMatches, ChecksumMatches, ValidArchive;
    ReadExactly(t, dir, archive, m);
    hide CheckManifest, ReadManifest;
  }

  lemma ReadExactly(t: Tools, dir: Directory, archive: string, m: Json)
    ensures ReadManifest(t, dir, archive) == Ok(m)
            <==> && (exists text :: Holds(dir, archive + ".manifest.json", text) && t.parseJson(text) == Some(m))
                 && CheckManifest(t, m, true) == Ok(m)
  {
    hide CommonVerdict, ValidArchive;
    if IsFile(dir, archive + ".manifest.json") {
      assert Holds(dir, archive + ".manifest.json", dir[archive + ".manifest.json"].data);
    }
  }
}
