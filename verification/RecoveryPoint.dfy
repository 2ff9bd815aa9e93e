/**
 * Packing, verifying and unpacking one recovery point: an encrypted archive with its
 * manifest and checksum sidecars in one directory (tools/backup/m29_backup.py).
 */
module RecoveryPoint {
  import opened Common
  import opened Manifests
  import Words

  /** Irregular stands for a link, a directory or an unreadable file. */
  datatype Node = Regular(data: string) | Irregular

  type Directory = map<string, Node>

  predicate IsFile(dir: Directory, name: string) {
    name in dir && dir[name].Regular?
  }

  function ManifestFile(archive: string): string { archive + ".manifest.json" }

  function ChecksumFile(archive: string): string { archive + ".sha256" }

  /** Entries under the names pack gives the members of its payload. */
  predicate PayloadEntries(entries: seq<(string, string)>) {
    forall i :: 0 <= i < |entries| ==> entries[i].0 == InnerName() || entries[i].0 in Allowed()
  }

  /**
   * What the tool needs of its libraries: text and archives read back as they were written, for the kind of
   * documents and entries pack writes. Nothing is said about collisions or secrecy.
   */
  ghost predicate Lawful(t: Tools) {
    && (forall x :: IsHex(t.sha256(x), 64))
    && (forall j :: KnownKeys(j) ==> t.parseJson(t.renderJson(j)) == Some(j))
    && (forall entries :: PayloadEntries(entries) ==> t.readTar(t.writeTar(entries)) == Some(AsMembers(entries)))
    && (forall r, n, x :: t.encrypt(r, n, x) != Some(""))
  }

  /** The identity opens what is encrypted for the recipient. */
  ghost predicate KeyPair(t: Tools, recipient: string, identity: string) {
    forall n, x :: t.encrypt(recipient, n, x).Some? ==>
      t.decrypt(identity, t.encrypt(recipient, n, x).value) == Some(x)
  }

  function AsMembers(entries: seq<(string, string)>): (members: seq<Member>)
    ensures |members| == |entries|
    ensures forall i :: 0 <= i < |entries| ==>
      members[i] == Member(entries[i].0, true, |entries[i].1|, entries[i].1)
  {
    if entries == [] then []
    else [Member(entries[0].0, true, |entries[0].1|, entries[0].1)] + AsMembers(entries[1..])
  }

  // ----- verify_outer -----

  function ReadManifest(t: Tools, dir: Directory, archive: string): Result<Json> {
    var file := ManifestFile(archive);
    if !IsFile(dir, file) then Err(Refused)
    else
      match t.parseJson(dir[file].data)
      case None => Err(Refused)
      case Some(j) => CheckManifest(t, j, true)
  }

  predicate ChecksumMatches(t: Tools, line: string, archive: string, data: string) {
    var parts := Words.Split(line);
    |parts| == 2 && parts[1] == archive && IsHex(parts[0], 64) && parts[0] == t.sha256(data)
  }

  predicate ArchiveMatches(t: Tools, entry: Json, archive: string, data: string)
    requires ValidArchive(entry)
  {
    && entry.fields[Name].s == archive
    && entry.fields[Sha256] == Text(t.sha256(data))
    && entry.fields[Size].n == |data|
  }

  lemma AcceptedOuter(t: Tools, j: Json)
    requires CheckManifest(t, j, true) == Ok(j)
    ensures j.Object? && EncryptedArchive in j.fields && ValidArchive(j.fields[EncryptedArchive])
  {
    hide Verdict;
  }

  /** verify_outer for an archive and its sidecars. */
  function VerifyOuter(t: Tools, dir: Directory, archive: string): (r: Result<Json>)
    ensures r.Ok? ==> ReadManifest(t, dir, archive) == r && CheckManifest(t, r.value, true) == r
  {
    hide Verdict;
    match ReadManifest(t, dir, archive)
    case Err(kind) => Err(kind)
    case Ok(m) =>
      AcceptedOuter(t, m);
      if !IsFile(dir, archive) || !IsFile(dir, ChecksumFile(archive)) then Err(Refused)
      else if !ArchiveMatches(t, m.fields[EncryptedArchive], archive, dir[archive].data) then Err(Refused)
      else if !ChecksumMatches(t, dir[ChecksumFile(archive)].data, archive, dir[archive].data) then Err(Refused)
      else Ok(m)
  }

  /** Readers see a recovery point only when all three files are in place and agree. */
  lemma VerifiedIsComplete(t: Tools, dir: Directory, archive: string)
    requires VerifyOuter(t, dir, archive).Ok?
    ensures IsFile(dir, archive) && IsFile(dir, ManifestFile(archive)) && IsFile(dir, ChecksumFile(archive))
    ensures EndsWith(archive, ".tar.age") && SafeName(archive) && NoSpace(archive)
  {
    hide Verdict;
    AcceptedOuter(t, VerifyOuter(t, dir, archive).value);
    var parts := Words.Split(dir[ChecksumFile(archive)].data);
    assert parts[1] in parts;
  }

  /** The verdict on a point depends on its three files and nothing else in the directory. */
  lemma VerifyIsLocal(t: Tools, d1: Directory, d2: Directory, archive: string)
    requires forall n :: n in {archive, ManifestFile(archive), ChecksumFile(archive)} ==>
      (n in d1 <==> n in d2) && (n in d1 ==> d1[n] == d2[n])
    ensures VerifyOuter(t, d1, archive) == VerifyOuter(t, d2, archive)
  {
    hide Verdict;
    hide CheckManifest;
    assert ManifestFile(archive) in {archive, ManifestFile(archive), ChecksumFile(archive)};
    assert ChecksumFile(archive) in {archive, ManifestFile(archive), ChecksumFile(archive)};
    assert archive in {archive, ManifestFile(archive), ChecksumFile(archive)};
  }
}
