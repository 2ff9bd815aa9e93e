/** pack: from named components to three published files. */
module Packing {
  import opened Common
  import opened Manifests
  import opened RecoveryPoint
  import opened Publication

  /** A resolved absolute path: its parts from the root. */
  type Path = seq<string>

  /** One NAME=PATH argument: its name, the resolved path and the file there. */
  datatype Component = Component(name: string, path: Path, source: Node)

  datatype Arguments = Arguments(
    directory: Path, archive: string, manifestOutput: Option<Path>, checksumOutput: Option<Path>,
    recipientPath: Path, recipient: Node, nonce: nat,
    pointClass: string, created: Option<string>, now: string,
    instance: string, database: string, environment: string, product: string, release: string,
    consistencyMethod: string, quiesceStart: Option<string>, databaseSnapshot: Option<string>,
    filestoreSnapshot: Option<string>, quiesceEnd: Option<string>,
    expectedAge: string, reportedAge: Option<string>)

  datatype Staged = Staged(cipher: string, outer: Json)

  function OrElse(o: Option<string>, default: string): string {
    if o.Some? && o.value != "" then o.value else default
  }

  function Created(args: Arguments): string { OrElse(args.created, args.now) }

  function QuiesceEndOf(args: Arguments): string { OrElse(args.quiesceEnd, Created(args)) }

  // ----- sorted(components) -----

  function Insert(c: Component, s: seq<Component>): seq<Component> {
    if s == [] || !TextLess(s[0].name, c.name) then [c] + s else [s[0]] + Insert(c, s[1..])
  }

  function Sort(s: seq<Component>): seq<Component> {
    if s == [] then [] else Insert(s[0], Sort(s[1..]))
  }

  function Names(s: seq<Component>): (names: seq<string>)
    ensures |names| == |s|
    ensures forall i :: 0 <= i < |s| ==> names[i] == s[i].name
  {
    if s == [] then [] else [s[0].name] + Names(s[1..])
  }

  predicate Sorted(s: seq<Component>) {
    |s| <= 1 || (TextLess(s[0].name, s[1].name) && Sorted(s[1..]))
  }

  lemma {:induction false} InsertKeeps(c: Component, s: seq<Component>)
    ensures multiset(Insert(c, s)) == multiset(s) + multiset{c}
    ensures |Insert(c, s)| == |s| + 1
  {
    if s == [] || !TextLess(s[0].name, c.name) {
    } else {
      InsertKeeps(c, s[1..]);
      assert s == [s[0]] + s[1..];
    }
  }

  lemma {:induction false} InsertSorts(c: Component, s: seq<Component>)
    requires Sorted(s) && c.name !in Names(s)
    ensures Sorted(Insert(c, s))
  {
    if s == [] {
    } else if !TextLess(s[0].name, c.name) {
      TextLessTotal(s[0].name, c.name);
      assert Names(s)[0] == s[0].name;
    } else {
      assert forall i :: 0 <= i < |s[1..]| ==> Names(s[1..])[i] == Names(s)[i + 1];
      InsertSorts(c, s[1..]);
    }
  }

  lemma {:induction false} SortPermutes(s: seq<Component>)
    ensures multiset(Sort(s)) == multiset(s) && |Sort(s)| == |s|
  {
    if s != [] {
      SortPermutes(s[1..]);
      InsertKeeps(s[0], Sort(s[1..]));
      assert s == [s[0]] + s[1..];
    }
  }

  lemma SameElements(a: seq<Component>, b: seq<Component>)
    requires multiset(a) == multiset(b)
    ensures forall c :: c in a <==> c in b
  {
    forall c
      ensures c in a <==> c in b
    {
      assert c in a <==> c in multiset(a);
      assert c in b <==> c in multiset(b);
    }
  }

  lemma HeadIsNew(s: seq<Component>)
    requires s != [] && NoDuplicates(Names(s))
    ensures NoDuplicates(Names(s[1..]))
    ensures forall c :: c in s[1..] ==> c.name != s[0].name
  {
    assert forall j :: 0 <= j < |s[1..]| ==> s[1..][j].name == Names(s)[j + 1];
    assert Names(s[1..]) == Names(s)[1..];
  }

  lemma {:induction false} SortSorts(s: seq<Component>)
    requires NoDuplicates(Names(s))
    ensures Sorted(Sort(s))
  {
    if s != [] {
      HeadIsNew(s);
      SortSorts(s[1..]);
      SortPermutes(s[1..]);
      SameElements(s[1..], Sort(s[1..]));
      hide Sorted;
      assert forall c :: c in Sort(s[1..]) ==> c.name != s[0].name;
      InsertSorts(s[0], Sort(s[1..]));
    }
  }

  lemma {:induction false} SortedHead(s: seq<Component>)
    requires Sorted(s) && s != []
    ensures forall c :: c in s[1..] ==> TextLess(s[0].name, c.name)
  {
    if 1 < |s| {
      SortedHead(s[1..]);
      forall c | c in s[1..]
        ensures TextLess(s[0].name, c.name)
      {
        if c != s[1] {
          assert c in s[1..][1..];
          TextLessTransitive(s[0].name, s[1].name, c.name);
        }
      }
    }
  }

  lemma SameHead(a: seq<Component>, b: seq<Component>)
    requires Sorted(a) && Sorted(b) && a != [] && b != []
    requires multiset(a) == multiset(b)
    ensures a[0] == b[0] && multiset(a[1..]) == multiset(b[1..])
  {
    hide Sorted;
    SameElements(a, b);
    SortedHead(a);
    SortedHead(b);
    if a[0] != b[0] {
      assert b[0] in a && a[0] in b;
      assert b[0] in a[1..] && a[0] in b[1..];
      TextLessAsymmetric(a[0].name, b[0].name);
      assert false;
    }
    assert a == [a[0]] + a[1..] && b == [b[0]] + b[1..];
    assert multiset(a[1..]) == multiset(a) - multiset{a[0]};
    assert multiset(b[1..]) == multiset(b) - multiset{b[0]};
  }

  lemma {:induction false} SortedUnique(a: seq<Component>, b: seq<Component>)
    requires Sorted(a) && Sorted(b) && multiset(a) == multiset(b)
    ensures a == b
  {
    assert |multiset(a)| == |a| && |multiset(b)| == |b|;
    if a != [] {
      SameHead(a, b);
      SortedUnique(a[1..], b[1..]);
      assert a == [a[0]] + a[1..] && b == [b[0]] + b[1..];
    }
  }

  /** The order of the component arguments leaves no trace. */
  lemma OrderLeavesNoTrace(a: seq<Component>, b: seq<Component>)
    requires NoDuplicates(Names(a)) && NoDuplicates(Names(b)) && multiset(a) == multiset(b)
    ensures Sort(a) == Sort(b)
  {
    SortPermutes(a);
    SortPermutes(b);
    SortSorts(a);
    SortSorts(b);
    SortedUnique(Sort(a), Sort(b));
  }

  // ----- build_manifest -----

  function ComponentEntry(t: Tools, c: Component): Json
    requires c.source.Regular?
  {
    Object(map[Name := Text(c.name), Sha256 := Text(t.sha256(c.source.data)), Size := Int(|c.source.data|)])
  }

  predicate AllRegular(s: seq<Component>) {
    forall i :: 0 <= i < |s| ==> s[i].source.Regular?
  }

  function Entries(t: Tools, s: seq<Component>): (entries: seq<Json>)
    requires AllRegular(s)
    ensures |entries| == |s|
    ensures forall i :: 0 <= i < |s| ==> entries[i] == ComponentEntry(t, s[i])
  {
    if s == [] then [] else [ComponentEntry(t, s[0])] + Entries(t, s[1..])
  }

  function SourceJson(args: Arguments): Json {
    Object(map[InstanceSlug := Text(args.instance), DatabaseName := Text(args.database),
               EnvironmentId := Text(args.environment), ProductVersion := Text(args.product),
               ReleaseSha := Text(args.release)])
  }

  function EncryptionJson(args: Arguments): Json {
    Object(map[Tool := Text("age"), Version := Text(args.expectedAge), Mode := Text("recipient-file")])
  }

  function ConsistencyJson(args: Arguments): Json {
    Object(map[Method := Text(args.consistencyMethod),
               QuiesceStart := Text(OrElse(args.quiesceStart, Created(args))),
               DatabaseSnapshot := Text(OrElse(args.databaseSnapshot, Created(args))),
               FilestoreSnapshot := Text(OrElse(args.filestoreSnapshot, Created(args))),
               QuiesceEnd := Text(QuiesceEndOf(args))])
  }

  predicate IdentityGiven(args: Arguments) {
    && NonBlank(args.instance) && NonBlank(args.database) && NonBlank(args.environment)
    && NonBlank(args.product) && NonBlank(args.release) && IsHex(args.release, 40)
  }

  predicate WindowOrdered(t: Tools, args: Arguments) {
    && args.consistencyMethod == CONSISTENCY_METHOD
    && Ordered4(Stamp(t, Text(OrElse(args.quiesceStart, Created(args)))),
                Stamp(t, Text(OrElse(args.databaseSnapshot, Created(args)))),
                Stamp(t, Text(OrElse(args.filestoreSnapshot, Created(args)))),
                Stamp(t, Text(QuiesceEndOf(args))))
  }

  /** What build_manifest checks before it returns a manifest. */
  predicate Buildable(t: Tools, args: Arguments) {
    && args.pointClass in Classes()
    && Stamp(t, Text(Created(args))).Some?
    && IsVersion(args.expectedAge) && args.reportedAge == Some(args.expectedAge)
    && IdentityGiven(args)
    && WindowOrdered(t, args)
  }

  function ManifestFields(t: Tools, args: Arguments, entries: seq<Json>): map<Field, Json> {
    map[SchemaVersion := Int(1), FormatName := Text(FORMAT), CreatedUtc := Text(Created(args)),
        PointClass := Text(args.pointClass), Source := SourceJson(args), Encryption := EncryptionJson(args),
        Consistency := ConsistencyJson(args), Components := List(entries)]
  }

  // ----- pack -----

  predicate Complete(names: set<string>) { Required() <= names <= Allowed() }

  /** Component arguments that pack accepts: readable files, allowed names, none repeated, none missing. */
  predicate Acceptable(components: seq<Component>) {
    && AllRegular(components)
    && (forall i :: 0 <= i < |components| ==> SafeName(components[i].name))
    && NoDuplicates(Names(components))
    && Complete(ToSet(Names(components)))
  }

  // ----- component_spec and the path checks -----

  /** str.lower() as far as it can yield the lower-case ASCII letters of the words below. */
  function LowerChar(ch: char): char {
    if 'A' <= ch <= 'Z' then ch + 32 as char else if ch == KELVIN then 'k' else ch
  }

  const KELVIN: char := 0x212A as char

  function Lower(s: string): (r: string)
    ensures |r| == |s| && forall i :: 0 <= i < |s| ==> r[i] == LowerChar(s[i])
  {
    seq(|s|, i requires 0 <= i < |s| => LowerChar(s[i]))
  }

  predicate SensitivePart(part: string) { Lower(part) == "secrets" || Lower(part) == ".ssh" }

  predicate SensitiveFile(name: string) {
    Lower(name) == "identity" || Lower(name) == "identity.age" || Lower(name) == "private.key"
  }

  /** A source under a directory of secrets, or a file named like a private key. */
  predicate SensitivePath(path: Path) {
    || (exists i :: 0 <= i < |path| && SensitivePart(path[i]))
    || (path != [] && SensitiveFile(path[|path| - 1]))
  }

  function OutputPath(args: Arguments, name: string): Path { args.directory + [name] }

  /** The three files pack is about to write. */
  predicate IsOutput(args: Arguments, path: Path) {
    || path == OutputPath(args, args.archive)
    || path == OutputPath(args, ManifestFile(args.archive))
    || path == OutputPath(args, ChecksumFile(args.archive))
  }

  /**
   * Sidecars beside the archive under their own names; no output is an input; no component is sensitive or
   * the recipient file.
   */
  predicate PathsAllowed(args: Arguments, components: seq<Component>) {
    && (args.manifestOutput.None? || args.manifestOutput.value == OutputPath(args, ManifestFile(args.archive)))
    && (args.checksumOutput.None? || args.checksumOutput.value == OutputPath(args, ChecksumFile(args.archive)))
    && !IsOutput(args, args.recipientPath)
    && forall i :: 0 <= i < |components| ==>
         && !SensitivePath(components[i].path)
         && !IsOutput(args, components[i].path) && components[i].path != args.recipientPath
  }

  function TarEntries(t: Tools, inner: Json, s: seq<Component>): (entries: seq<(string, string)>)
    requires AllRegular(s)
    ensures |entries| == |s| + 1 && entries[0] == (InnerName(), t.renderJson(inner))
    ensures forall i :: 0 <= i < |s| ==> entries[i + 1] == (s[i].name, s[i].source.data)
  {
    [(InnerName(), t.renderJson(inner))] + seq(|s|, i requires 0 <= i < |s| => (s[i].name, s[i].source.data))
  }

  function ArchiveJson(t: Tools, archive: string, cipher: string): Json {
    Object(map[Name := Text(archive), Sha256 := Text(t.sha256(cipher)), Size := Int(|cipher|)])
  }

  /** The tar archive that is encrypted. */
  function PlainPayload(t: Tools, args: Arguments, sorted: seq<Component>): string
    requires AllRegular(sorted)
  {
    t.writeTar(TarEntries(t, Object(ManifestFields(t, args, Entries(t, sorted))), sorted))
  }

  /** The staged cipher text and outer manifest, or the refusal met while staging. */
  function Stage(t: Tools, args: Arguments, sorted: seq<Component>): Result<Staged>
    requires AllRegular(sorted)
  {
    if !Buildable(t, args) then Err(Refused)
    else
      var fields := ManifestFields(t, args, Entries(t, sorted));
      match t.encrypt(if args.recipient.Regular? then args.recipient.data else "", args.nonce,
                      PlainPayload(t, args, sorted))
      case None => Err(Refused)
      case Some(cipher) =>
        Ok(Staged(cipher, Object(fields[EncryptedArchive := ArchiveJson(t, args.archive, cipher)])))
  }

  function PointItems(t: Tools, archive: string, staged: Staged): (items: seq<Item>)
    ensures |items| == 3
  {
    [Item(archive, staged.cipher),
     Item(ManifestFile(archive), t.renderJson(staged.outer)),
     Item(ChecksumFile(archive), t.sha256(staged.cipher) + "  " + archive + "\n")]
  }

  predicate Vacant(dir: Directory, archive: string) {
    archive !in dir && ManifestFile(archive) !in dir && ChecksumFile(archive) !in dir
  }

  /** A publication of three files in which nothing fails. */
  function Undisturbed(): (faults: seq<Fault>)
    ensures |faults| == 3 && forall i :: 0 <= i < 3 ==> faults[i].Clean?
  {
    [Clean, Clean, Clean]
  }

  /** What pack checks before it stages anything. */
  predicate Admitted(dir: Directory, args: Arguments, components: seq<Component>) {
    args.recipient.Regular? && Acceptable(components) && PathsAllowed(args, components) && Vacant(dir, args.archive)
  }

  /** pack: the directory it leaves and its outcome. */
  function PackInto(t: Tools, dir: Directory, args: Arguments, components: seq<Component>, faults: seq<Fault>)
    : (Directory, Result<()>)
    requires |faults| == 3
  {
    if !Admitted(dir, args, components) then (dir, Err(Refused))
    else
      SortKeepsRegular(components);
      match Stage(t, args, Sort(components))
      case Err(kind) => (dir, Err(kind))
      case Ok(staged) => PublishFrom(dir, PointItems(t, args.archive, staged), faults, [])
  }

  /** Every directory a reader can meet while pack runs. */
  function PackTrace(t: Tools, dir: Directory, args: Arguments, components: seq<Component>, faults: seq<Fault>)
    : (trace: seq<Directory>)
    requires |faults| == 3
    ensures trace != [] && trace[0] == dir
  {
    if !Admitted(dir, args, components) then [dir]
    else
      SortKeepsRegular(components);
      match Stage(t, args, Sort(components))
      case Err(_) => [dir]
      case Ok(staged) => Trace(dir, PointItems(t, args.archive, staged), faults, [])
  }

  lemma SortKeepsRegular(s: seq<Component>)
    requires AllRegular(s)
    ensures AllRegular(Sort(s))
  {
    SortPermutes(s);
    SameElements(s, Sort(s));
    forall i | 0 <= i < |Sort(s)|
      ensures Sort(s)[i].source.Regular?
    {
      assert Sort(s)[i] in s;
    }
  }

  /** pack, publishing into a directory in place; its history gains the states of the trace. */
  method Pack(t: Tools, target: Target, args: Arguments, components: seq<Component>, faults: seq<Fault>)
    returns (r: Result<()>)
    requires |faults| == 3
    modifies target
    ensures (target.files, r) == PackInto(t, old(target.files), args, components, faults)
    ensures target.history == old(target.history) + PackTrace(t, old(target.files), args, components, faults)[1..]
  {
    hide Admitted, Acceptable, Trace, PublishFrom, Stage;
    if !Admitted(target.files, args, components) {
      return Err(Refused);
    }
    assert AllRegular(components) by {
      AdmittedRegular(target.files, args, components);
    }
    SortKeepsRegular(components);
    var staged := Stage(t, args, Sort(components));
    if staged.Err? {
      return Err(staged.kind);
    }
    r := target.PublishAll(PointItems(t, args.archive, staged.value), faults);
  }

  lemma AdmittedRegular(dir: Directory, args: Arguments, components: seq<Component>)
    requires Admitted(dir, args, components)
    ensures AllRegular(components)
  {
  }
}
