/** Packs that succeed and whose point verification then refuses, on concrete arguments. */
module RejectedPacks {
  import opened Common
  import opened Manifests
  import opened RecoveryPoint
  import opened Publication
  import opened Packing
  import opened RoundTrip
  import Decimal

  /** The five required components, empty files under short paths. */
  function SampleComponents(): (s: seq<Component>)
    ensures |s| == 5 && forall i :: 0 <= i < 5 ==> s[i].source == Regular("") && s[i].path == ["srv", "in"]
  {
    [SampleComponent("db.dump"), SampleComponent("filestore.tar.gz"), SampleComponent("environment_id"),
     SampleComponent("runtime-lock.json"), SampleComponent("deployment-manifest.json")]
  }

  function SampleComponent(name: string): Component { Component(name, ["srv", "in"], Regular("")) }

  function SampleRelease(): string { seq(40, _ => 'a') }

  /** Arguments for an archive name, a creation time and the end of the write-stop window. */
  function SampleArguments(archive: string, created: string, end: string): Arguments {
    Arguments(["srv", "out", "day"], archive, None, None, ["etc", "age"], Regular("age1"), 0,
              "daily", Some(created), "", "pm", "pm", "prod", "19", SampleRelease(),
              CONSISTENCY_METHOD, None, None, None, Some(end), "1.0.0", Some("1.0.0"))
  }

  lemma SampleVersion()
    ensures IsVersion("1.0.0")
  {
    var s := "1.0.0";
    assert s[..1] == "1" && s[2..3] == "0" && s[4..] == "0" && s[1] == '.' && s[3] == '.';
    assert Decimal.IsNumber("1") && Decimal.IsNumber("0");
    assert Decimal.IsNumber(s[..1]) && Decimal.IsNumber(s[1 + 1..3]) && Decimal.IsNumber(s[3 + 1..]);
  }

  lemma SampleIdentity(archive: string, created: string, end: string)
    ensures IdentityGiven(SampleArguments(archive, created, end))
  {
    var args := SampleArguments(archive, created, end);
    assert !IsSpace(args.instance[0]) && !IsSpace(args.database[0]) && !IsSpace(args.environment[0]);
    assert !IsSpace(args.product[0]) && !IsSpace(args.release[0]);
  }

  lemma SampleBuildable(t: Tools, archive: string, created: string, end: string)
    requires Stamp(t, Text(created)).Some? && Stamp(t, Text(end)).Some?
    requires Stamp(t, Text(created)).value <= Stamp(t, Text(end)).value
    ensures Buildable(t, SampleArguments(archive, created, end))
  {
    SampleIdentity(archive, created, end);
    SampleVersion();
    hide IdentityGiven, IsVersion;
  }

  lemma SampleNames()
    ensures Names(SampleComponents())
            == ["db.dump", "filestore.tar.gz", "environment_id", "runtime-lock.json", "deployment-manifest.json"]
  {
    var s, names := SampleComponents(), Names(SampleComponents());
    assert names[0] == s[0].name && names[1] == s[1].name && names[2] == s[2].name && names[3] == s[3].name
        && names[4] == s[4].name;
  }

  lemma SampleName(name: string)
    requires name in Required()
    ensures SafeName(name)
  {
    if name == "db.dump" { assert |name| == 7; }
    if name == "filestore.tar.gz" { assert |name| == 16; }
    if name == "environment_id" { assert |name| == 14; }
    if name == "runtime-lock.json" { assert |name| == 17; }
    if name == "deployment-manifest.json" { assert |name| == 24; }
  }

  lemma SampleLengths(names: seq<string>)
    requires names == ["db.dump", "filestore.tar.gz", "environment_id", "runtime-lock.json", "deployment-manifest.json"]
    ensures |names[0]| == 7 && |names[1]| == 16 && |names[2]| == 14 && |names[3]| == 17 && |names[4]| == 24
  {
  }

  lemma SampleDistinct(names: seq<string>)
    requires |names| == 5 && |names[0]| == 7 && |names[1]| == 16 && |names[2]| == 14
    requires |names[3]| == 17 && |names[4]| == 24
    ensures NoDuplicates(names)
  {
  }

  lemma RequiredComplete(names: seq<string>)
    requires |names| == 5 && names[0] == "db.dump" && names[1] == "filestore.tar.gz" && names[2] == "environment_id"
    requires names[3] == "runtime-lock.json" && names[4] == "deployment-manifest.json"
    ensures Complete(ToSet(names)) && forall i :: 0 <= i < 5 ==> names[i] in Required()
  {
    assert forall i :: 0 <= i < 5 ==> names[i] in Required();
    assert forall n :: n in Required() ==> n in names;
  }

  lemma SampleAcceptable()
    ensures Acceptable(SampleComponents())
  {
    SampleNames();
    var s, names := SampleComponents(), Names(SampleComponents());
    SampleLengths(names);
    SampleDistinct(names);
    RequiredComplete(names);
    assert AllRegular(s);
    hide *;
    SafeNames(s);
    AcceptableByParts(s);
  }

  lemma SafeNames(s: seq<Component>)
    requires |s| == 5 && forall i :: 0 <= i < 5 ==> Names(s)[i] in Required()
    ensures forall i :: 0 <= i < |s| ==> SafeName(s[i].name)
  {
    hide Names, Required, SafeName;
    forall i | 0 <= i < |s|
      ensures SafeName(s[i].name)
    {
      SampleName(Names(s)[i]);
    }
  }

  lemma AcceptableByParts(s: seq<Component>)
    requires AllRegular(s) && forall i :: 0 <= i < |s| ==> SafeName(s[i].name)
    requires NoDuplicates(Names(s)) && Complete(ToSet(Names(s)))
    ensures Acceptable(s)
  {
  }

  lemma SamplePaths(archive: string, created: string, end: string)
    ensures PathsAllowed(SampleArguments(archive, created, end), SampleComponents())
  {
    assert |Lower("srv")| == 3 && |Lower("in")| == 2;
    assert !SensitivePath(["srv", "in"]);
  }

  lemma SampleAdmitted(archive: string, created: string, end: string)
    ensures Admitted(map[], SampleArguments(archive, created, end), SampleComponents())
  {
    SampleAcceptable();
    SamplePaths(archive, created, end);
    hide Acceptable, PathsAllowed, SampleComponents;
  }

  lemma SamplePackable(t: Tools, archive: string, created: string, end: string)
    requires forall r, n, x :: t.encrypt(r, n, x).Some?
    requires Stamp(t, Text(created)).Some? && Stamp(t, Text(end)).Some?
    requires Stamp(t, Text(created)).value <= Stamp(t, Text(end)).value
    ensures Packable(t, map[], SampleArguments(archive, created, end), SampleComponents())
  {
    SampleBuildable(t, archive, created, end);
    SampleAdmitted(archive, created, end);
    hide Admitted, Buildable, SampleComponents, SampleArguments, Stamp, PlainPayload, Sort;
  }

  /** The sample packs, whatever the archive is called and however late the window ended. */
  lemma SamplePacks(t: Tools, archive: string, created: string, end: string)
    requires forall r, n, x :: t.encrypt(r, n, x).Some?
    requires Stamp(t, Text(created)).Some? && Stamp(t, Text(end)).Some?
    requires Stamp(t, Text(created)).value <= Stamp(t, Text(end)).value
    ensures PackInto(t, map[], SampleArguments(archive, created, end), SampleComponents(), Undisturbed()).1.Ok?
  {
    assert FirstFault(Undisturbed()) == 3;
    SamplePackable(t, archive, created, end);
    hide PackInto, SampleArguments, SampleComponents, Packable, FirstFault, Stamp;
    PackSucceedsExactly(t, map[], SampleArguments(archive, created, end), SampleComponents(), Undisturbed());
  }

  predicate SampleVerifies(t: Tools, archive: string, created: string, end: string) {
    var after := PackInto(t, map[], SampleArguments(archive, created, end), SampleComponents(), Undisturbed()).0;
    VerifyOuter(t, after, archive).Ok?
  }

  lemma SampleVerifiable(t: Tools, archive: string, created: string, end: string)
    requires created != "" && end != "" && Stamp(t, Text(created)).Some? && Stamp(t, Text(end)).Some?
    requires Stamp(t, Text(created)).value <= Stamp(t, Text(end)).value
    ensures SampleArguments(archive, created, end).archive == archive
    ensures Verifiable(t, SampleArguments(archive, created, end))
            <==> EndsWith(archive, ".tar.age") && NoSpace(archive) && Stamp(t, Text(created)) == Stamp(t, Text(end))
  {
    hide EndsWith, NoSpace, Stamp;
  }

  lemma SampleVerdict(t: Tools, archive: string, created: string, end: string)
    requires Lawful(t) && SafeName(archive) && forall r, n, x :: t.encrypt(r, n, x).Some?
    requires created != "" && end != "" && Stamp(t, Text(created)).Some? && Stamp(t, Text(end)).Some?
    requires Stamp(t, Text(created)).value <= Stamp(t, Text(end)).value
    ensures SampleVerifies(t, archive, created, end)
            <==> EndsWith(archive, ".tar.age") && NoSpace(archive) && Stamp(t, Text(created)) == Stamp(t, Text(end))
  {
    SamplePacks(t, archive, created, end);
    SampleVerifiable(t, archive, created, end);
    hide VerifyOuter, PackInto, Lawful, SafeName, EndsWith, NoSpace, Stamp, SampleArguments, SampleComponents,
         Verifiable;
    PackedVerifiesExactly(t, map[], SampleArguments(archive, created, end), SampleComponents(), Undisturbed());
  }

  /**
   * Four packs that all succeed. Verification accepts the one named point.tar.age whose window ended
   * when it was created, and refuses one with another suffix, one with a space in its name, and one
   * whose window ended after its creation time.
   */
  lemma PackedButRejected(t: Tools, created: string, later: string)
    requires Lawful(t) && forall r, n, x :: t.encrypt(r, n, x).Some?
    requires created != "" && t.parseUtc(created).Some? && later != "" && t.parseUtc(later).Some?
    requires t.parseUtc(created).value < t.parseUtc(later).value
    ensures forall archive, end :: end == created || end == later ==>
      PackInto(t, map[], SampleArguments(archive, created, end), SampleComponents(), Undisturbed()).1.Ok?
    ensures SampleVerifies(t, "point.tar.age", created, created)
    ensures !SampleVerifies(t, "point.tar", created, created)
    ensures !SampleVerifies(t, "my point.tar.age", created, created)
    ensures !SampleVerifies(t, "point.tar.age", created, later)
  {
    assert Stamp(t, Text(created)) == t.parseUtc(created) && Stamp(t, Text(later)) == t.parseUtc(later);
    SampleNamed("point.tar.age", "point.tar", "my point.tar.age");
    hide Lawful, SampleArguments, SampleComponents, PackInto, SampleVerifies, Stamp, SafeName, EndsWith, NoSpace;
    forall archive, end | end == created || end == later
      ensures PackInto(t, map[], SampleArguments(archive, created, end), SampleComponents(), Undisturbed()).1.Ok?
    {
      SamplePacks(t, archive, created, end);
    }
    SampleVerdict(t, "point.tar.age", created, created);
    SampleVerdict(t, "point.tar", created, created);
    SampleVerdict(t, "my point.tar.age", created, created);
    SampleVerdict(t, "point.tar.age", created, later);
  }

  lemma SampleNamed(good: string, short: string, spaced: string)
    requires good == "point.tar.age" && short == "point.tar" && spaced == "my point.tar.age"
    ensures SafeName(good) && EndsWith(good, ".tar.age") && NoSpace(good)
    ensures SafeName(short) && !EndsWith(short, ".tar.age")
    ensures SafeName(spaced) && !NoSpace(spaced)
  {
    assert good[5..] == ".tar.age";
    assert short[1..][0] == 'o';
    assert IsSpace(spaced[2]);
  }
}
