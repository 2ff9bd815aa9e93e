/** Decrypting and unpacking a recovery point: nothing is accepted but the manifest's own members. */
module Unpacking {
  import opened Common
  import opened Manifests
  import opened RecoveryPoint

  type Files = map<string, string>

  function MemberNames(members: seq<Member>): (names: seq<string>)
    ensures |names| == |members|
    ensures forall i :: 0 <= i < |members| ==> names[i] == members[i].name
  {
    if members == [] then [] else [members[0].name] + MemberNames(members[1..])
  }

  /** member_by_name[name]: names are distinct when this is used. */
  function Find(members: seq<Member>, name: string): (m: Member)
    requires name in MemberNames(members)
    ensures m in members && m.name == name
  {
    if members[0].name == name then members[0]
    else
      assert MemberNames(members) == [members[0].name] + MemberNames(members[1..]);
      Find(members[1..], name)
  }

  lemma {:induction false} FindDistinct(members: seq<Member>, i: nat)
    requires i < |members| && NoDuplicates(MemberNames(members))
    ensures members[i].name in MemberNames(members)
    ensures Find(members, members[i].name) == members[i]
  {
    hide Find;
    var names := MemberNames(members);
    assert names[i] == members[i].name;
    hide MemberNames;
    var found := Find(members, members[i].name);
    var j :| 0 <= j < |members| && members[j] == found;
    assert names[j] == members[j].name;
  }

  predicate PayloadNames(names: seq<string>) {
    && NoDuplicates(names)
    && (forall i :: 0 <= i < |names| ==> SafeName(names[i]))
    && InnerName() in names
    && (forall i :: 0 <= i < |names| ==> names[i] == InnerName() || names[i] in Allowed())
  }

  /** Checks on the tar headers alone, before anything is read. */
  predicate HeadersOk(members: seq<Member>) {
    && PayloadNames(MemberNames(members))
    && forall i :: 0 <= i < |members| ==> members[i].regular && 0 <= members[i].size
  }

  /** A member read in full matches its header and its manifest entry. */
  predicate MemberMatches(t: Tools, m: Member, entry: Json)
    requires ValidComponent(entry)
  {
    |m.data| == m.size && m.size == entry.fields[Size].n && entry.fields[Sha256] == Text(t.sha256(m.data))
  }

  predicate MembersListed(members: seq<Member>, entries: seq<Json>)
    requires ValidEach(entries)
  {
    var names, expected := MemberNames(members), {InnerName()} + ToSet(ComponentNames(entries));
    ToSet(names) == expected && |names| == |expected|
  }

  predicate EachMatches(t: Tools, members: seq<Member>, entries: seq<Json>)
    requires ValidEach(entries)
  {
    forall i :: 0 <= i < |entries| ==>
      ComponentName(entries[i]) in MemberNames(members)
      && MemberMatches(t, Find(members, ComponentName(entries[i])), entries[i])
  }

  function Extracted(members: seq<Member>): Files {
    map n | n in MemberNames(members) :: Find(members, n).data
  }

  /** The component entries a manifest lists. */
  function EntriesOf(j: Json): seq<Json> {
    if j.Object? && Components in j.fields && j.fields[Components].List? then j.fields[Components].items else []
  }

  lemma AcceptedEntries(t: Tools, outer: Json)
    requires CheckManifest(t, outer, true) == Ok(outer)
    ensures outer.Object?
    ensures ValidEach(EntriesOf(outer)) && NoDuplicates(ComponentNames(EntriesOf(outer)))
    ensures Required() <= ToSet(ComponentNames(EntriesOf(outer)))
  {
    hide ValidSource, ValidEncryption, ValidConsistency, ValidComponents, ValidEach, ComponentNames, NoDuplicates;
    assert Inner(outer).fields[Components] == outer.fields[Components];
    assert ValidComponents(outer.fields[Components]);
    ListedEntries(outer.fields[Components]);
  }

  lemma ListedEntries(j: Json)
    requires ValidComponents(j)
    ensures j.List? && ValidEach(j.items) && NoDuplicates(ComponentNames(j.items))
    ensures Required() <= ToSet(ComponentNames(j.items))
  {
    hide ValidEach, ComponentNames;
  }

  /** The inner manifest, once its bytes are read. */
  function InnerVerdict(t: Tools, bytes: string, outer: Json): Result<()>
    requires outer.Object?
  {
    match t.parseJson(bytes)
    case None => Err(Refused)
    case Some(inner) =>
      var r := CheckManifest(t, inner, false);
      if r.Err? then Err(r.kind) else if inner != Inner(outer) then Err(Refused) else Ok(())
  }

  /** validate_payload: the accepted members, or the failure. An unreadable tar escapes as a tarfile error. */
  function Payload(t: Tools, plain: string, outer: Json): Result<Files>
    requires outer.Object? && ValidEach(EntriesOf(outer))
  {
    match t.readTar(plain)
    case None => Err(Escaped)
    case Some(members) =>
      if !HeadersOk(members) then Err(Refused)
      else
        var inner := InnerVerdict(t, Find(members, InnerName()).data, outer);
        if inner.Err? then Err(inner.kind)
        else if !MembersListed(members, EntriesOf(outer)) then Err(Refused)
        else if !EachMatches(t, members, EntriesOf(outer)) then Err(Refused)
        else Ok(Extracted(members))
  }

  /** The file unpacked for a manifest entry has the entry's size and digest. */
  predicate FileMatches(t: Tools, files: Files, entry: Json)
    requires ValidComponent(entry)
  {
    var name := ComponentName(entry);
    name in files && entry.fields[Size].n == |files[name]| && entry.fields[Sha256] == Text(t.sha256(files[name]))
  }

  lemma EntryExtracted(t: Tools, members: seq<Member>, entry: Json)
    requires ValidComponent(entry) && ComponentName(entry) in MemberNames(members)
    requires MemberMatches(t, Find(members, ComponentName(entry)), entry)
    ensures FileMatches(t, Extracted(members), entry)
  {
    hide Find, MemberNames, ValidComponent;
  }

  lemma AcceptedMembers(t: Tools, members: seq<Member>, entries: seq<Json>)
    requires ValidEach(entries) && MembersListed(members, entries) && EachMatches(t, members, entries)
    ensures Extracted(members).Keys == {InnerName()} + ToSet(ComponentNames(entries))
    ensures forall i :: 0 <= i < |entries| ==> FileMatches(t, Extracted(members), entries[i])
  {
    hide ComponentName, ValidComponent, FileMatches, MemberMatches, Find, ComponentNames, MemberNames;
    forall i | 0 <= i < |entries|
      ensures FileMatches(t, Extracted(members), entries[i])
    {
      EntryExtracted(t, members, entries[i]);
    }
  }

  lemma PayloadParts(t: Tools, plain: string, outer: Json)
    requires outer.Object? && ValidEach(EntriesOf(outer))
    requires Payload(t, plain, outer).Ok?
    ensures t.readTar(plain).Some?
    ensures var members := t.readTar(plain).value;
      && HeadersOk(members)
      && Payload(t, plain, outer) == Ok(Extracted(members))
      && InnerVerdict(t, Find(members, InnerName()).data, outer).Ok?
      && MembersListed(members, EntriesOf(outer)) && EachMatches(t, members, EntriesOf(outer))
  {
    hide ValidEach, EntriesOf, HeadersOk, MembersListed, EachMatches, InnerVerdict, Find, Extracted;
  }

  lemma InnerExtracted(t: Tools, members: seq<Member>, outer: Json)
    requires outer.Object? && HeadersOk(members)
    requires InnerVerdict(t, Find(members, InnerName()).data, outer).Ok?
    ensures InnerName() in Extracted(members)
    ensures t.parseJson(Extracted(members)[InnerName()]) == Some(Inner(outer))
  {
    hide CheckManifest, Find, Inner;
  }

  /**
   * For an arbitrary payload, acceptance means the output is the manifest's own entries plus
   * manifest.json, each with the size and digest the manifest gives, and nothing else.
   */
  lemma AcceptedPayloadIsTheManifest(t: Tools, plain: string, outer: Json)
    requires outer.Object? && ValidEach(EntriesOf(outer))
    requires Payload(t, plain, outer).Ok?
    ensures var files, entries := Payload(t, plain, outer).value, EntriesOf(outer);
      && files.Keys == {InnerName()} + ToSet(ComponentNames(entries))
      && (forall i :: 0 <= i < |entries| ==> FileMatches(t, files, entries[i]))
      && InnerName() in files && t.parseJson(files[InnerName()]) == Some(Inner(outer))
  {
    PayloadParts(t, plain, outer);
    var members := t.readTar(plain).value;
    AcceptedMembers(t, members, EntriesOf(outer));
    InnerExtracted(t, members, outer);
    hide ValidEach, EntriesOf, HeadersOk, MembersListed, EachMatches, InnerVerdict, Payload, FileMatches, Inner;
  }

  lemma MatchesSoFar(t: Tools, members: seq<Member>, entries: seq<Json>, i: nat)
    requires ValidEach(entries) && i < |entries| && EachMatches(t, members, entries[..i])
    requires ComponentName(entries[i]) in MemberNames(members)
    ensures EachMatches(t, members, entries[..i + 1])
            <==> MemberMatches(t, Find(members, ComponentName(entries[i])), entries[i])
    ensures EachMatches(t, members, entries) ==> EachMatches(t, members, entries[..i + 1])
  {
    hide ValidComponent, ComponentName, MemberNames, MemberMatches, Find;
    assert entries[..i + 1][i] == entries[i];
    assert forall k :: 0 <= k < i ==> entries[..i + 1][k] == entries[..i][k];
    assert forall k :: 0 <= k < i + 1 ==> entries[..i + 1][k] == entries[k];
  }

  lemma NamesSoFar(entries: seq<Json>, i: nat)
    requires ValidEach(entries) && i < |entries|
    ensures ToSet(ComponentNames(entries[..i + 1]))
            == ToSet(ComponentNames(entries[..i])) + {ComponentName(entries[i])}
  {
    hide ValidComponent, ComponentName;
    assert ComponentNames(entries[..i + 1]) == ComponentNames(entries[..i]) + [ComponentName(entries[i])];
  }

  /** What the copying loop has written after some entries. */
  predicate Written(members: seq<Member>, output: Files, names: set<string>) {
    && output.Keys == {InnerName()} + names
    && forall n :: n in output ==> n in MemberNames(members) && output[n] == Find(members, n).data
  }

  lemma WrittenAll(members: seq<Member>, output: Files, entries: seq<Json>)
    requires ValidEach(entries) && MembersListed(members, entries)
    requires Written(members, output, ToSet(ComponentNames(entries)))
    ensures output == Extracted(members)
  {
    hide ValidEach, ComponentNames, Find, MemberNames;
    assert output.Keys == ToSet(MemberNames(members));
  }

  /** validate_payload's copying loop, one component at a time. */
  method ValidatePayload(t: Tools, plain: string, outer: Json) returns (r: Result<Files>)
    requires outer.Object? && ValidEach(EntriesOf(outer))
    ensures r == Payload(t, plain, outer)
  {
    hide ValidComponent, ComponentName, InnerVerdict, HeadersOk, MembersListed, EachMatches, MemberMatches, Find,
         EntriesOf, ValidEach, MemberNames, Extracted, Written, ComponentNames;
    var entries := EntriesOf(outer);
    var tar := t.readTar(plain);
    if tar.None? {
      return Err(Escaped);
    }
    var members := tar.value;
    if !HeadersOk(members) {
      return Err(Refused);
    }
    HasInner(members);
    var bytes := Find(members, InnerName()).data;
    var inner := InnerVerdict(t, bytes, outer);
    if inner.Err? {
      return Err(inner.kind);
    }
    if !MembersListed(members, entries) {
      return Err(Refused);
    }
    var output: Files := map[InnerName() := bytes];
    var i := 0;
    StartWriting(t, members, entries, output);
    while i < |entries|
      invariant 0 <= i <= |entries|
      invariant ValidEach(entries[..i]) && EachMatches(t, members, entries[..i])
      invariant Written(members, output, ToSet(ComponentNames(entries[..i])))
    {
      EntryValidAndListed(members, entries, i);
      var name := ComponentName(entries[i]);
      var member := Find(members, name);
      MatchesSoFar(t, members, entries, i);
      if !MemberMatches(t, member, entries[i]) {
        return Err(Refused);
      }
      WriteOne(members, output, entries, i);
      output := output[name := member.data];
      i := i + 1;
    }
    assert entries[..i] == entries;
    WrittenAll(members, output, entries);
    r := Ok(output);
  }

  lemma HasInner(members: seq<Member>)
    requires HeadersOk(members)
    ensures InnerName() in MemberNames(members)
  {
  }

  lemma StartWriting(t: Tools, members: seq<Member>, entries: seq<Json>, output: Files)
    requires HeadersOk(members) && ValidEach(entries)
    requires InnerName() in MemberNames(members)
    requires output == map[InnerName() := Find(members, InnerName()).data]
    ensures ValidEach(entries[..0]) && EachMatches(t, members, entries[..0])
    ensures Written(members, output, ToSet(ComponentNames(entries[..0])))
  {
    hide Find;
    assert ToSet(ComponentNames(entries[..0])) == {};
  }

  lemma EntryValidAndListed(members: seq<Member>, entries: seq<Json>, i: nat)
    requires ValidEach(entries) && i < |entries| && MembersListed(members, entries)
    ensures ValidComponent(entries[i]) && ComponentName(entries[i]) in MemberNames(members)
    ensures ValidEach(entries[..i + 1])
  {
    hide ValidComponent, ComponentName, MemberNames;
    assert ComponentNames(entries)[i] == ComponentName(entries[i]);
    assert ComponentName(entries[i]) in ToSet(MemberNames(members));
  }

  lemma WriteName(members: seq<Member>, output: Files, names: set<string>, name: string)
    requires Written(members, output, names) && name in MemberNames(members)
    ensures Written(members, output[name := Find(members, name).data], names + {name})
  {
    hide MemberNames, Find;
    assert output[name := Find(members, name).data].Keys == output.Keys + {name};
  }

  lemma WriteOne(members: seq<Member>, output: Files, entries: seq<Json>, i: nat)
    requires ValidEach(entries) && i < |entries| && ComponentName(entries[i]) in MemberNames(members)
    requires Written(members, output, ToSet(ComponentNames(entries[..i])))
    ensures var name := ComponentName(entries[i]);
      Written(members, output[name := Find(members, name).data], ToSet(ComponentNames(entries[..i + 1])))
  {
    NamesSoFar(entries, i);
    WriteName(members, output, ToSet(ComponentNames(entries[..i])), ComponentName(entries[i]));
    hide Written;
  }

  /** The identity an operator may ask for; an absent part is not checked. */
  datatype Expected = Expected(instance: Option<string>, database: Option<string>, environment: Option<string>)

  predicate Agrees(expected: Option<string>, m: Json, key: Field) {
    expected.None? || (m.Object? && Source in m.fields && m.fields[Source].Object? && key in m.fields[Source].fields
                       && m.fields[Source].fields[key] == Text(expected.value))
  }

  predicate ExpectedSource(m: Json, e: Expected) {
    && Agrees(e.instance, m, InstanceSlug) && Agrees(e.database, m, DatabaseName)
    && Agrees(e.environment, m, EnvironmentId)
  }

  /** unpack: the files restored into a new or empty directory. */
  function Unpack(t: Tools, dir: Directory, archive: string, identity: string, expected: Expected, vacant: bool)
    : Result<Files>
  {
    hide CheckManifest;
    var verdict := VerifyOuter(t, dir, archive);
    if verdict.Err? then Err(verdict.kind)
    else if !ExpectedSource(verdict.value, expected) || !vacant then Err(Refused)
    else
      AcceptedEntries(t, verdict.value);
      VerifiedIsComplete(t, dir, archive);
      match t.decrypt(identity, dir[archive].data)
      case None => Err(Refused)
      case Some(plain) => Payload(t, plain, verdict.value)
  }
}
