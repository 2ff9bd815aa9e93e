/**
 * Recovery-point manifests: the JSON documents tools/backup/m29_backup.py writes and validates.
 * Object keys are an enumeration, with Other for every key the format does not know.
 */
module Manifests {
  import opened Common
  import Decimal

  datatype Field =
    | SchemaVersion | FormatName | CreatedUtc | PointClass | Source | Encryption | Consistency
    | Components | EncryptedArchive
    | InstanceSlug | DatabaseName | EnvironmentId | ProductVersion | ReleaseSha
    | Tool | Version | Mode
    | Method | QuiesceStart | DatabaseSnapshot | FilestoreSnapshot | QuiesceEnd
    | Name | Sha256 | Size
    | Other(key: string)

  datatype Json =
    | Null
    | Bool(b: bool)
    | Int(n: int)
    | Text(s: string)
    | List(items: seq<Json>)
    | Object(fields: map<Field, Json>)

  /** A document without a key the format does not know, anywhere in it. */
  predicate KnownKeys(j: Json) {
    match j
    case List(items) => forall i :: 0 <= i < |items| ==> KnownKeys(items[i])
    case Object(fields) => forall k :: k in fields ==> !k.Other? && KnownKeys(fields[k])
    case _ => true
  }

  /** One entry of a tar archive: header name, kind and size, and the bytes reading it yields. */
  datatype Member = Member(name: string, regular: bool, size: int, data: string)

  /** Hashing, JSON, timestamps, tar and age: library behaviour the tool relies on. */
  datatype Tools = Tools(
    sha256: string -> string,
    parseJson: string -> Option<Json>,
    renderJson: Json -> string,
    parseUtc: string -> Option<nat>,
    readTar: string -> Option<seq<Member>>,
    writeTar: seq<(string, string)> -> string,
    encrypt: (string, nat, string) -> Option<string>,
    decrypt: (string, string) -> Option<string>)

  const FORMAT := "pmqms-recovery-point-v1"
  const CONSISTENCY_METHOD := "maintenance-write-stop"

  function Required(): set<string> {
    {"db.dump", "filestore.tar.gz", "environment_id", "runtime-lock.json", "deployment-manifest.json"}
  }

  function Allowed(): set<string> { Required() + {"active.pmql", "product-manifest.json"} }

  function Classes(): set<string> { {"intraday", "daily", "monthly"} }

  /** The payload member that holds the inner manifest. */
  function InnerName(): string { "manifest.json" }

  const COMMON_KEYS: set<Field> :=
    {SchemaVersion, FormatName, CreatedUtc, PointClass, Source, Encryption, Consistency, Components}

  predicate IsHex(s: string, length: nat) {
    |s| == length && forall k :: 0 <= k < |s| ==> '0' <= s[k] <= '9' || 'a' <= s[k] <= 'f'
  }

  /** The characters Python's str.split() and str.strip() treat as white space. */
  predicate IsSpace(c: char) {
    var n := c as int;
    9 <= n <= 13 || 28 <= n <= 32 || n == 0x85 || n == 0xA0 || n == 0x1680 || 0x2000 <= n <= 0x200A
    || n == 0x2028 || n == 0x2029 || n == 0x202F || n == 0x205F || n == 0x3000
  }

  predicate NoSpace(s: string) { forall k :: 0 <= k < |s| ==> !IsSpace(s[k]) }

  /** bool(value.strip()). */
  predicate NonBlank(s: string) { exists k :: 0 <= k < |s| && !IsSpace(s[k]) }

  /** A plain file name: no separator, not empty, not a dot directory. */
  predicate SafeName(s: string) { s != "" && '/' !in s && s != "." && s != ".." }

  /** The text matches digits.digits.digits. */
  predicate IsVersion(s: string) {
    exists i, j :: 0 <= i < j < |s| && s[i] == '.' && s[j] == '.'
      && Decimal.IsNumber(s[..i]) && Decimal.IsNumber(s[i + 1..j]) && Decimal.IsNumber(s[j + 1..])
  }

  /** str(value), for the values whose text can match a digest or a version pattern. */
  function PyStr(j: Json): string {
    match j
    case Text(s) => s
    case Int(n) => if n < 0 then "" else Decimal.Print(n)
    case _ => ""
  }

  predicate HasKeys(j: Json, keys: set<Field>) {
    j.Object? && j.fields.Keys == keys
  }

  /** The value of a key; Null stands in for an object without it and for anything that is no object. */
  function Part(j: Json, key: Field): Json {
    if j.Object? && key in j.fields then j.fields[key] else Null
  }

  function Stamp(t: Tools, j: Json): Option<nat> {
    if j.Text? && j.s != "" then t.parseUtc(j.s) else None
  }

  predicate ValidSource(j: Json) {
    && HasKeys(j, {InstanceSlug, DatabaseName, EnvironmentId, ProductVersion, ReleaseSha})
    && (forall k :: k in j.fields ==> j.fields[k].Text? && NonBlank(j.fields[k].s))
    && IsHex(j.fields[ReleaseSha].s, 40)
  }

  predicate ValidEncryption(j: Json) {
    && HasKeys(j, {Tool, Version, Mode})
    && j.fields[Tool] == Text("age") && j.fields[Mode] == Text("recipient-file")
    && IsVersion(PyStr(j.fields[Version]))
  }

  predicate Ordered4(a: Option<nat>, b: Option<nat>, c: Option<nat>, d: Option<nat>) {
    a.Some? && b.Some? && c.Some? && d.Some? && a.value <= b.value <= c.value <= d.value
  }

  predicate ValidConsistency(t: Tools, j: Json, created: Option<nat>) {
    && HasKeys(j, {Method, QuiesceStart, DatabaseSnapshot, FilestoreSnapshot, QuiesceEnd})
    && j.fields[Method] == Text(CONSISTENCY_METHOD)
    && Ordered4(Stamp(t, j.fields[QuiesceStart]), Stamp(t, j.fields[DatabaseSnapshot]),
                Stamp(t, j.fields[FilestoreSnapshot]), Stamp(t, j.fields[QuiesceEnd]))
    && created.Some? && Stamp(t, j.fields[QuiesceEnd]).value <= created.value
  }

  predicate ValidComponent(j: Json) {
    && HasKeys(j, {Name, Sha256, Size})
    && j.fields[Name].Text? && SafeName(j.fields[Name].s) && j.fields[Name].s in Allowed()
    && IsHex(PyStr(j.fields[Sha256]), 64)
    && j.fields[Size].Int? && 0 <= j.fields[Size].n
  }

  function ComponentName(j: Json): string
    requires ValidComponent(j)
  {
    j.fields[Name].s
  }

  predicate ValidEach(items: seq<Json>) {
    forall i :: 0 <= i < |items| ==> ValidComponent(items[i])
  }

  function ComponentNames(items: seq<Json>): (names: seq<string>)
    requires ValidEach(items)
    ensures |names| == |items|
    ensures forall i :: 0 <= i < |items| ==> names[i] == ComponentName(items[i])
  {
    if items == [] then [] else [ComponentName(items[0])] + ComponentNames(items[1..])
  }

  /** Every entry is well formed, no name repeats, and every required name is there. */
  predicate ValidComponents(j: Json) {
    && j.List? && j.items != []
    && ValidEach(j.items)
    && NoDuplicates(ComponentNames(j.items))
    && Required() <= ToSet(ComponentNames(j.items))
  }

  /** The validator's loop, which collects the names it has seen, decides ValidComponents. */
  method CheckComponents(j: Json) returns (ok: bool)
    ensures ok <==> ValidComponents(j)
  {
    hide ValidComponent, ComponentName;
    if !j.List? || j.items == [] {
      return false;
    }
    var names: seq<string> := [];
    var i := 0;
    while i < |j.items|
      invariant 0 <= i <= |j.items|
      invariant ValidEach(j.items[..i])
      invariant names == ComponentNames(j.items[..i])
      invariant NoDuplicates(names)
    {
      var component := j.items[i];
      if !ValidComponent(component) || ComponentName(component) in names {
        RefusedEntry(j.items, i, names);
        return false;
      }
      assert j.items[..i + 1] == j.items[..i] + [component];
      names := names + [ComponentName(component)];
      i := i + 1;
    }
    assert j.items[..i] == j.items;
    ok := Required() <= ToSet(names);
  }

  lemma RefusedEntry(items: seq<Json>, i: nat, names: seq<string>)
    requires i < |items| && ValidEach(items[..i]) && names == ComponentNames(items[..i])
    requires !ValidComponent(items[i]) || ComponentName(items[i]) in names
    ensures !(ValidEach(items) && NoDuplicates(ComponentNames(items)))
  {
    if ValidEach(items) {
      var k :| 0 <= k < |names| && names[k] == ComponentName(items[i]);
      assert items[..i][k] == items[k];
      assert ComponentNames(items)[k] == ComponentNames(items)[i];
    }
  }

  predicate ValidArchive(j: Json) {
    && HasKeys(j, {Name, Sha256, Size})
    && j.fields[Name].Text? && SafeName(j.fields[Name].s) && EndsWith(j.fields[Name].s, ".tar.age")
    && IsHex(PyStr(j.fields[Sha256]), 64)
    && j.fields[Size].Int? && 1 <= j.fields[Size].n
  }

  predicate ValidBody(
    t: Tools, created: Json, source: Json, encryption: Json, consistency: Json, components: Json) {
    && Stamp(t, created).Some?
    && ValidSource(source)
    && ValidEncryption(encryption)
    && ValidConsistency(t, consistency, Stamp(t, created))
    && ValidComponents(components)
  }

  /**
   * The checks on the eight common entries. A class that is a list or an object is unhashable: that error is
   * not a refusal.
   */
  function Verdict(
    t: Tools, version: Json, format: Json, class_: Json,
    created: Json, source: Json, encryption: Json, consistency: Json, components: Json): Option<Failure>
  {
    if version != Int(1) || format != Text(FORMAT) then Some(Refused)
    else if class_.List? || class_.Object? then Some(Escaped)
    else if !class_.Text? || class_.s !in Classes() then Some(Refused)
    else if !ValidBody(t, created, source, encryption, consistency, components) then Some(Refused)
    else None
  }

  function CommonVerdict(t: Tools, m: map<Field, Json>): Option<Failure>
    requires COMMON_KEYS <= m.Keys
  {
    Verdict(t, m[SchemaVersion], m[FormatName], m[PointClass],
            m[CreatedUtc], m[Source], m[Encryption], m[Consistency], m[Components])
  }

  function Inner(outer: Json): Json
    requires outer.Object?
  {
    Object(outer.fields - {EncryptedArchive})
  }

  /** validate_manifest: the common entries are checked alike in inner and outer manifests. */
  function CheckManifest(t: Tools, j: Json, outer: bool): Result<Json> {
    if !HasKeys(j, COMMON_KEYS + if outer then {EncryptedArchive} else {}) then Err(Refused)
    else if CommonVerdict(t, Inner(j).fields).Some? then Err(CommonVerdict(t, Inner(j).fields).value)
    else if outer && !ValidArchive(j.fields[EncryptedArchive]) then Err(Refused)
    else Ok(j)
  }

  // ----- an accepted manifest has known keys only -----

  lemma {:induction false} FlatKnown(j: Json)
    requires j.Object? && forall k :: k in j.fields ==> !k.Other? && !j.fields[k].List? && !j.fields[k].Object?
    ensures KnownKeys(j)
  {
  }

  lemma SourceKnown(j: Json)
    requires ValidSource(j)
    ensures KnownKeys(j)
  {
    FlatKnown(j);
  }

  lemma EncryptionKnown(j: Json)
    requires ValidEncryption(j)
    ensures KnownKeys(j)
  {
    var version := j.fields[Version];
    assert PyStr(version) != "" by {
      assert IsVersion(PyStr(version));
    }
    FlatKnown(j);
  }

  lemma ConsistencyKnown(t: Tools, j: Json, created: Option<nat>)
    requires ValidConsistency(t, j, created)
    ensures KnownKeys(j)
  {
    FlatKnown(j);
  }

  lemma SizedKnown(j: Json)
    requires HasKeys(j, {Name, Sha256, Size}) && j.fields[Name].Text? && IsHex(PyStr(j.fields[Sha256]), 64)
    requires j.fields[Size].Int?
    ensures KnownKeys(j)
  {
    FlatKnown(j);
  }

  lemma ComponentsKnown(j: Json)
    requires ValidComponents(j)
    ensures KnownKeys(j)
  {
    forall i | 0 <= i < |j.items|
      ensures KnownKeys(j.items[i])
    {
      assert ValidComponent(j.items[i]);
      SizedKnown(j.items[i]);
    }
  }

  lemma BodyKnown(t: Tools, created: Json, source: Json, encryption: Json, consistency: Json, components: Json)
    requires ValidBody(t, created, source, encryption, consistency, components)
    ensures created.Text? && KnownKeys(source) && KnownKeys(encryption)
    ensures KnownKeys(consistency) && KnownKeys(components)
  {
    SourceKnown(source);
    EncryptionKnown(encryption);
    ConsistencyKnown(t, consistency, Stamp(t, created));
    ComponentsKnown(components);
  }

  lemma ScalarKnown(j: Json)
    requires j.Int? || j.Text?
    ensures KnownKeys(j)
  {
  }

  /** The eight common entries hold known keys only. */
  predicate EachKnown(m: map<Field, Json>)
    requires COMMON_KEYS <= m.Keys
  {
    && KnownKeys(m[SchemaVersion]) && KnownKeys(m[FormatName]) && KnownKeys(m[CreatedUtc]) && KnownKeys(m[PointClass])
    && KnownKeys(m[Source]) && KnownKeys(m[Encryption]) && KnownKeys(m[Consistency]) && KnownKeys(m[Components])
  }

  lemma CommonParts(t: Tools, m: map<Field, Json>)
    requires COMMON_KEYS <= m.Keys && CommonVerdict(t, m).None?
    ensures m[SchemaVersion].Int? && m[FormatName].Text? && m[PointClass].Text?
    ensures ValidBody(t, m[CreatedUtc], m[Source], m[Encryption], m[Consistency], m[Components])
  {
    hide ValidBody, Classes;
  }

  lemma CommonKnown(t: Tools, m: map<Field, Json>)
    requires COMMON_KEYS <= m.Keys && CommonVerdict(t, m).None?
    ensures EachKnown(m)
  {
    CommonParts(t, m);
    BodyKnown(t, m[CreatedUtc], m[Source], m[Encryption], m[Consistency], m[Components]);
    hide CommonVerdict, ValidBody, KnownKeys;
    ScalarKnown(m[SchemaVersion]);
    ScalarKnown(m[FormatName]);
    ScalarKnown(m[PointClass]);
    ScalarKnown(m[CreatedUtc]);
  }

  lemma OneKnown(m: map<Field, Json>, k: Field)
    requires COMMON_KEYS <= m.Keys && EachKnown(m) && k in COMMON_KEYS
    ensures !k.Other? && KnownKeys(m[k])
  {
    hide KnownKeys;
    match k
    case SchemaVersion => case FormatName => case CreatedUtc => case PointClass =>
    case Source => case Encryption => case Consistency => case Components =>
    case _ => assert false;
  }

  lemma {:induction false} ObjectKnown(j: Json)
    requires j.Object? && forall k :: k in j.fields ==> !k.Other? && KnownKeys(j.fields[k])
    ensures KnownKeys(j)
  {
  }

  lemma AcceptedParts(t: Tools, j: Json, outer: bool)
    requires CheckManifest(t, j, outer) == Ok(j)
    ensures j.Object? && COMMON_KEYS <= Inner(j).fields.Keys && CommonVerdict(t, Inner(j).fields).None?
    ensures forall k :: k in j.fields ==>
      (k in COMMON_KEYS && Inner(j).fields[k] == j.fields[k]) || k == EncryptedArchive
    ensures EncryptedArchive in j.fields ==> outer && ValidArchive(j.fields[EncryptedArchive])
  {
    hide CommonVerdict, ValidArchive;
  }

  /** The schema is closed: nothing in an accepted manifest, however deep, has a key of its own. */
  lemma AcceptedKnown(t: Tools, j: Json, outer: bool)
    requires CheckManifest(t, j, outer) == Ok(j)
    ensures KnownKeys(j)
  {
    AcceptedParts(t, j, outer);
    CommonKnown(t, Inner(j).fields);
    hide CheckManifest, CommonVerdict, KnownKeys, Inner, EachKnown;
    forall k | k in j.fields
      ensures !k.Other? && KnownKeys(j.fields[k])
    {
      if k == EncryptedArchive {
        SizedKnown(j.fields[k]);
      } else {
        OneKnown(Inner(j).fields, k);
      }
    }
    ObjectKnown(j);
  }

  /** Dropping the archive entry of an accepted outer manifest leaves an accepted inner one. */
  lemma InnerOfOuter(t: Tools, j: Json)
    requires CheckManifest(t, j, true).Ok?
    ensures CheckManifest(t, Inner(j), false) == Ok(Inner(j))
  {
    hide Verdict;
    assert Inner(j).fields.Keys == COMMON_KEYS;
    assert Inner(Inner(j)).fields == Inner(j).fields;
  }
}
