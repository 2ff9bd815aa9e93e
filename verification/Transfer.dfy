/** transfer: copying a verified recovery point into another directory. */
module Transfer {
  import opened Common
  import opened Manifests
  import opened RecoveryPoint
  import opened Publication
  import opened Packing
  import RT = RoundTrip

  /** All three files of the point are in place. */
  predicate Complete3(dir: Directory, archive: string) {
    IsFile(dir, archive) && IsFile(dir, ManifestFile(archive)) && IsFile(dir, ChecksumFile(archive))
  }

  lemma TripleNames(archive: string)
    ensures archive != ManifestFile(archive) && archive != ChecksumFile(archive)
    ensures ManifestFile(archive) != ChecksumFile(archive)
  {
    assert |ManifestFile(archive)| == |archive| + 14 && |ChecksumFile(archive)| == |archive| + 7;
  }

  /** What pack leaves when it fails after staging: the old directory exactly when a link was refused first. */
  lemma PackFailureRestores(t: Tools, dir: Directory, archive: string, staged: Staged, faults: seq<Fault>)
    requires |faults| == 3 && Vacant(dir, archive)
    requires PublishFrom(dir, PointItems(t, archive, staged), faults, []).1.Err?
    ensures FirstFault(faults) < 3
    ensures PublishFrom(dir, PointItems(t, archive, staged), faults, []).0 == dir
            <==> faults[FirstFault(faults)].LinkFails?
  {
    RT.PointFresh(t, dir, archive, staged);
    FailureRestoresExactly(dir, PointItems(t, archive, staged), faults);
    hide PublishFrom, PointItems, Vacant;
  }

  // ----- transfer -----

  /** The three files of a verified point, in the order they are copied. */
  function SourceItems(src: Directory, archive: string): (items: seq<Item>)
    requires Complete3(src, archive)
    ensures |items| == 3
  {
    [Item(archive, src[archive].data),
     Item(ManifestFile(archive), src[ManifestFile(archive)].data),
     Item(ChecksumFile(archive), src[ChecksumFile(archive)].data)]
  }

  /** A name already at the destination that is not a file with the same digest. */
  predicate Conflicts(t: Tools, dst: Directory, item: Item) {
    item.name in dst && (dst[item.name].Irregular? || t.sha256(dst[item.name].data) != t.sha256(item.data))
  }

  predicate AnyConflict(t: Tools, dst: Directory, items: seq<Item>) {
    exists i :: 0 <= i < |items| && Conflicts(t, dst, items[i])
  }

  /** What copying left in the staging directory; None is a copy that raised an operating-system error. */
  function StageCopies(t: Tools, items: seq<Item>, copies: seq<Option<string>>): (r: Result<seq<Item>>)
    requires |copies| == |items|
    ensures r.Ok? ==> |r.value| == |items|
    ensures r.Ok? ==> forall i :: 0 <= i < |items| ==>
      r.value[i].name == items[i].name && t.sha256(r.value[i].data) == t.sha256(items[i].data)
  {
    if items == [] then Ok([])
    else if copies[0].None? then Err(Escaped)
    else if t.sha256(copies[0].value) != t.sha256(items[0].data) then Err(Refused)
    else
      match StageCopies(t, items[1..], copies[1..])
      case Err(kind) => Err(kind)
      case Ok(rest) => Ok([Item(items[0].name, copies[0].value)] + rest)
  }

  /** The staged files whose names the destination lacks, and the faults their publication meets. */
  function Missing(dst: Directory, items: seq<Item>): seq<Item> {
    if items == [] then []
    else (if items[0].name in dst then [] else [items[0]]) + Missing(dst, items[1..])
  }

  function MissingFaults(dst: Directory, items: seq<Item>, faults: seq<Fault>): (f: seq<Fault>)
    requires |faults| == |items|
    ensures |f| == |Missing(dst, items)|
  {
    if items == [] then []
    else (if items[0].name in dst then [] else [faults[0]]) + MissingFaults(dst, items[1..], faults[1..])
  }

  /** Bringing the files to a destination; the result says whether they were all in place already. */
  function Deliver(t: Tools, items: seq<Item>, dst: Directory, copies: seq<Option<string>>, faults: seq<Fault>)
    : (Directory, Result<bool>)
    requires |copies| == |items| && |faults| == |items|
  {
    if AnyConflict(t, dst, items) then (dst, Err(Refused))
    else if AllIn(dst, items) then (dst, Ok(true))
    else
      match StageCopies(t, items, copies)
      case Err(kind) => (dst, Err(kind))
      case Ok(staged) =>
        var (after, r) := PublishFrom(dst, Missing(dst, staged), MissingFaults(dst, staged, faults), []);
        (after, if r.Ok? then Ok(false) else Err(r.kind))
  }

  /** transfer; a destination that is the source directory itself is refused once the source is verified. */
  function TransferInto(t: Tools, src: Directory, archive: string, dst: Directory, sameDirectory: bool,
                        copies: seq<Option<string>>, faults: seq<Fault>): (Directory, Result<bool>)
    requires |copies| == 3 && |faults| == 3
  {
    hide CheckManifest;
    var verdict := VerifyOuter(t, src, archive);
    if verdict.Err? then (dst, Err(verdict.kind))
    else if sameDirectory then (dst, Err(Refused))
    else
      VerifiedIsComplete(t, src, archive);
      Deliver(t, SourceItems(src, archive), dst, copies, faults)
  }

  /** Every directory a reader can meet at the destination while the files are brought there. */
  function DeliverTrace(t: Tools, items: seq<Item>, dst: Directory, copies: seq<Option<string>>, faults: seq<Fault>)
    : (trace: seq<Directory>)
    requires |copies| == |items| && |faults| == |items|
    ensures trace != [] && trace[0] == dst
  {
    if AnyConflict(t, dst, items) || AllIn(dst, items) then [dst]
    else
      match StageCopies(t, items, copies)
      case Err(_) => [dst]
      case Ok(staged) => Trace(dst, Missing(dst, staged), MissingFaults(dst, staged, faults), [])
  }

  function TransferTrace(t: Tools, src: Directory, archive: string, dst: Directory, sameDirectory: bool,
                         copies: seq<Option<string>>, faults: seq<Fault>): (trace: seq<Directory>)
    requires |copies| == 3 && |faults| == 3
    ensures trace != [] && trace[0] == dst
  {
    hide CheckManifest;
    if VerifyOuter(t, src, archive).Err? || sameDirectory then [dst]
    else
      VerifiedIsComplete(t, src, archive);
      DeliverTrace(t, SourceItems(src, archive), dst, copies, faults)
  }

  ghost predicate DistinctNames(items: seq<Item>) {
    forall i, j :: 0 <= i < j < |items| ==> items[i].name != items[j].name
  }

  lemma {:induction false} MissingMembers(dst: Directory, items: seq<Item>)
    ensures forall m :: m in Missing(dst, items) <==> m in items && m.name !in dst
  {
    if items != [] {
      MissingMembers(dst, items[1..]);
      assert items == [items[0]] + items[1..];
    }
  }

  lemma {:induction false} MissingFresh(dst: Directory, items: seq<Item>)
    requires DistinctNames(items)
    ensures Fresh(dst, Missing(dst, items))
  {
    if items != [] {
      var rest := items[1..];
      assert forall i :: 0 <= i < |rest| ==> rest[i] == items[i + 1];
      MissingFresh(dst, rest);
      if items[0].name !in dst {
        MissingMembers(dst, rest);
        FreshCons(dst, items[0], Missing(dst, rest));
      }
    }
  }

  lemma FreshCons(dst: Directory, head: Item, rest: seq<Item>)
    requires Fresh(dst, rest) && head.name !in dst
    requires forall m :: m in rest ==> m.name != head.name
    ensures Fresh(dst, [head] + rest)
  {
    var all, names := [head] + rest, NamesOf(rest);
    assert all[1..] == rest;
    assert NamesOf(all) == [head.name] + names;
    hide NamesOf, NoDuplicates;
    assert forall i :: 0 <= i < |rest| ==> rest[i] in rest && names[i] != head.name;
    NoDuplicatesCons(head.name, names);
    forall i | 0 <= i < |all|
      ensures all[i].name !in dst
    {
      if 0 < i {
        assert all[i] == rest[i - 1];
      }
    }
  }

  lemma SourceDistinct(src: Directory, archive: string)
    requires Complete3(src, archive)
    ensures DistinctNames(SourceItems(src, archive))
  {
    TripleNames(archive);
    hide ManifestFile, ChecksumFile;
  }

  lemma LandingKeeps(dir: Directory, items: seq<Item>, faults: seq<Fault>, n: string)
    requires |faults| == |items| && Fresh(dir, items) && n in dir
    ensures n in Landing(dir, items, faults).0 && Landing(dir, items, faults).0[n] == dir[n]
  {
    var k := FirstFault(faults);
    PlacedContents(dir, items);
    if k < |items| {
      FreshPrefix(dir, items, k + 1);
      PlacedContents(dir, items[..k + 1]);
    }
  }

  /** The publishing branch, and the only way the destination changes. */
  predicate Publishes(t: Tools, items: seq<Item>, dst: Directory, copies: seq<Option<string>>)
    requires |copies| == |items|
  {
    !AnyConflict(t, dst, items) && !AllIn(dst, items) && StageCopies(t, items, copies).Ok?
  }

  lemma DeliverCases(t: Tools, items: seq<Item>, dst: Directory, copies: seq<Option<string>>, faults: seq<Fault>)
    requires |copies| == |items| && |faults| == |items|
    ensures var (after, r) := Deliver(t, items, dst, copies, faults);
      && (r.Ok? ==> !AnyConflict(t, dst, items))
      && (r == Ok(true) ==> after == dst && AllIn(dst, items))
      && (after != dst || r == Ok(false) ==> Publishes(t, items, dst, copies))
  {
    hide AnyConflict, AllIn, PublishFrom, Missing, MissingFaults, StageCopies;
  }

  lemma DeliverLands(t: Tools, items: seq<Item>, dst: Directory, copies: seq<Option<string>>, faults: seq<Fault>)
    requires |copies| == |items| && |faults| == |items| && DistinctNames(items)
    requires Publishes(t, items, dst, copies)
    ensures var staged := StageCopies(t, items, copies).value;
      var landed := Landing(dst, Missing(dst, staged), MissingFaults(dst, staged, faults));
      && DistinctNames(staged) && Fresh(dst, Missing(dst, staged))
      && Deliver(t, items, dst, copies, faults) == (landed.0, if landed.1.Ok? then Ok(false) else Err(landed.1.kind))
  {
    var staged := StageCopies(t, items, copies).value;
    MissingFresh(dst, staged);
    PublishLands(dst, Missing(dst, staged), MissingFaults(dst, staged, faults));
    hide AnyConflict, AllIn, PublishFrom, Landing, Missing, MissingFaults, Fresh, StageCopies;
  }

  lemma {:induction false} DeliverNeverReplaces(
      t: Tools, items: seq<Item>, dst: Directory, copies: seq<Option<string>>, faults: seq<Fault>, n: string)
    requires |copies| == |items| && |faults| == |items| && DistinctNames(items) && n in dst
    ensures n in Deliver(t, items, dst, copies, faults).0
    ensures Deliver(t, items, dst, copies, faults).0[n] == dst[n]
  {
    DeliverCases(t, items, dst, copies, faults);
    hide *;
    if Deliver(t, items, dst, copies, faults).0 != dst {
      DeliverLands(t, items, dst, copies, faults);
      var staged := StageCopies(t, items, copies).value;
      LandingKeeps(dst, Missing(dst, staged), MissingFaults(dst, staged, faults), n);
    }
  }

  /** Whatever happens, a file that was at the destination is still there, unchanged. */
  lemma TransferNeverReplaces(t: Tools, src: Directory, archive: string, dst: Directory, sameDirectory: bool,
                              copies: seq<Option<string>>, faults: seq<Fault>, n: string)
    requires |copies| == 3 && |faults| == 3 && n in dst
    ensures n in TransferInto(t, src, archive, dst, sameDirectory, copies, faults).0
    ensures TransferInto(t, src, archive, dst, sameDirectory, copies, faults).0[n] == dst[n]
  {
    if VerifyOuter(t, src, archive).Ok? {
      VerifiedIsComplete(t, src, archive);
      SourceDistinct(src, archive);
      DeliverNeverReplaces(t, SourceItems(src, archive), dst, copies, faults, n);
    }
    hide VerifyOuter, Deliver, SourceItems;
  }

  lemma LandedPresent(t: Tools, dst: Directory, staged: seq<Item>, faults: seq<Fault>, i: nat)
    requires |faults| == |staged| && DistinctNames(staged) && Fresh(dst, Missing(dst, staged)) && i < |staged|
    requires Landing(dst, Missing(dst, staged), MissingFaults(dst, staged, faults)).1.Ok?
    ensures var after := Landing(dst, Missing(dst, staged), MissingFaults(dst, staged, faults)).0;
      && staged[i].name in after
      && after[staged[i].name] == if staged[i].name in dst then dst[staged[i].name] else Regular(staged[i].data)
  {
    MissingMembers(dst, staged);
    hide Placed, Missing, MissingFaults, Fresh;
    if staged[i].name in dst {
      LandingKeeps(dst, Missing(dst, staged), MissingFaults(dst, staged, faults), staged[i].name);
    } else {
      assert staged[i] in Missing(dst, staged);
      PlacedHas(dst, Missing(dst, staged), staged[i]);
    }
  }

  lemma PlacedHas(dst: Directory, items: seq<Item>, item: Item)
    requires Fresh(dst, items) && item in items
    ensures item.name in Placed(dst, items) && Placed(dst, items)[item.name] == Regular(item.data)
  {
    PlacedContents(dst, items);
    hide Placed, Fresh, NamesOf;
    var k :| 0 <= k < |items| && items[k] == item;
    assert NamesOf(items)[k] == item.name;
  }

  /** A name holds a file with the digest of the source's file. */
  predicate Delivered(t: Tools, dir: Directory, item: Item) {
    IsFile(dir, item.name) && t.sha256(dir[item.name].data) == t.sha256(item.data)
  }

  lemma DeliverDelivers(t: Tools, items: seq<Item>, dst: Directory, copies: seq<Option<string>>, faults: seq<Fault>)
    requires |copies| == |items| && |faults| == |items| && DistinctNames(items)
    requires Deliver(t, items, dst, copies, faults).1.Ok?
    ensures forall i :: 0 <= i < |items| ==> Delivered(t, Deliver(t, items, dst, copies, faults).0, items[i])
  {
    DeliverCases(t, items, dst, copies, faults);
    hide Deliver, Publishes, Landing, Missing, MissingFaults, Fresh, StageCopies;
    var (after, r) := Deliver(t, items, dst, copies, faults);
    forall i | 0 <= i < |items|
      ensures Delivered(t, after, items[i])
    {
      assert !Conflicts(t, dst, items[i]);
      if r == Ok(false) {
        DeliverLands(t, items, dst, copies, faults);
        LandedPresent(t, dst, StageCopies(t, items, copies).value, faults, i);
      }
    }
  }

  /** After a successful transfer every file is at the destination with the source's digest. */
  lemma TransferDelivers(t: Tools, src: Directory, archive: string, dst: Directory, sameDirectory: bool,
                         copies: seq<Option<string>>, faults: seq<Fault>)
    requires |copies| == 3 && |faults| == 3
    requires TransferInto(t, src, archive, dst, sameDirectory, copies, faults).1.Ok?
    ensures VerifyOuter(t, src, archive).Ok? && Complete3(src, archive)
    ensures forall i :: 0 <= i < 3 ==>
      Delivered(t, TransferInto(t, src, archive, dst, sameDirectory, copies, faults).0, SourceItems(src, archive)[i])
  {
    hide VerifyOuter, Deliver, SourceItems, Delivered;
    VerifiedIsComplete(t, src, archive);
    SourceDistinct(src, archive);
    DeliverDelivers(t, SourceItems(src, archive), dst, copies, faults);
  }

  /** A second call finds the point in place and publishes nothing, whatever its copies or faults would be. */
  lemma TransferTwice(t: Tools, src: Directory, archive: string, dst: Directory, sameDirectory: bool,
                      copies: seq<Option<string>>, faults: seq<Fault>,
                      copies2: seq<Option<string>>, faults2: seq<Fault>)
    requires |copies| == 3 && |faults| == 3 && |copies2| == 3 && |faults2| == 3
    requires TransferInto(t, src, archive, dst, sameDirectory, copies, faults).1.Ok?
    ensures var after := TransferInto(t, src, archive, dst, sameDirectory, copies, faults).0;
      TransferInto(t, src, archive, after, sameDirectory, copies2, faults2) == (after, Ok(true))
  {
    TransferDelivers(t, src, archive, dst, sameDirectory, copies, faults);
    var after := TransferInto(t, src, archive, dst, sameDirectory, copies, faults).0;
    NothingToDo(t, after, SourceItems(src, archive));
    hide VerifyOuter, SourceItems, StageCopies, PublishFrom, AnyConflict, AllIn, Complete3, Delivered;
  }

  lemma NothingToDo(t: Tools, dst: Directory, items: seq<Item>)
    requires forall i :: 0 <= i < |items| ==> Delivered(t, dst, items[i])
    ensures !AnyConflict(t, dst, items) && AllIn(dst, items)
  {
  }

  /** The first fault met while publishing the missing files is one that leaves files behind. */
  predicate FirstLeaves(dst: Directory, staged: seq<Item>, faults: seq<Fault>)
    requires |faults| == |staged|
  {
    var met := MissingFaults(dst, staged, faults);
    FirstFault(met) < |met| && !met[FirstFault(met)].LinkFails?
  }

  /**
   * A failed delivery leaves the destination as it was unless publication began and its first
   * fault was a link that outlived its staged name or a failed flush.
   */
  lemma DeliverFailureRestores(t: Tools, items: seq<Item>, dst: Directory, copies: seq<Option<string>>,
                               faults: seq<Fault>)
    requires |copies| == |items| && |faults| == |items| && DistinctNames(items)
    requires Deliver(t, items, dst, copies, faults).1.Err?
    ensures Deliver(t, items, dst, copies, faults).0 == dst
            <==> !(Publishes(t, items, dst, copies) && FirstLeaves(dst, StageCopies(t, items, copies).value, faults))
  {
    DeliverCases(t, items, dst, copies, faults);
    hide Deliver, Publishes, Landing, Missing, MissingFaults, Fresh, StageCopies, FirstFault, PublishFrom, AnyConflict,
         AllIn, DistinctNames;
    if Publishes(t, items, dst, copies) {
      DeliverLands(t, items, dst, copies, faults);
      var staged := StageCopies(t, items, copies).value;
      PublishLands(dst, Missing(dst, staged), MissingFaults(dst, staged, faults));
      FailureRestoresExactly(dst, Missing(dst, staged), MissingFaults(dst, staged, faults));
    }
  }

  /** The delivered file and the source's file are different texts with one digest. */
  predicate Collides(t: Tools, dir: Directory, item: Item) {
    && IsFile(dir, item.name) && dir[item.name].data != item.data
    && t.sha256(dir[item.name].data) == t.sha256(item.data)
  }

  /** The delivered point verifies just as the source does, unless one of its three files shows a digest collision. */
  lemma TransferredVerifies(t: Tools, src: Directory, archive: string, dst: Directory, sameDirectory: bool,
                            copies: seq<Option<string>>, faults: seq<Fault>)
    requires |copies| == 3 && |faults| == 3
    requires TransferInto(t, src, archive, dst, sameDirectory, copies, faults).1.Ok?
    ensures Complete3(src, archive)
    ensures var after := TransferInto(t, src, archive, dst, sameDirectory, copies, faults).0;
      || VerifyOuter(t, after, archive) == VerifyOuter(t, src, archive)
      || exists i :: 0 <= i < 3 && Collides(t, after, SourceItems(src, archive)[i])
  {
    TransferDelivers(t, src, archive, dst, sameDirectory, copies, faults);
    hide VerifyOuter, TransferInto, ManifestFile, ChecksumFile;
    var after, items := TransferInto(t, src, archive, dst, sameDirectory, copies, faults).0, SourceItems(src, archive);
    assert Delivered(t, after, items[0]) && Delivered(t, after, items[1]) && Delivered(t, after, items[2]);
    if !Collides(t, after, items[0]) && !Collides(t, after, items[1]) && !Collides(t, after, items[2]) {
      VerifyIsLocal(t, after, src, archive);
    }
  }

  /**
   * transfer's publication loop: it skips what is already there and takes back what it published on a
   * refusal. Readers meet the states of the trace, and no others.
   */
  method PublishMissing(target: Target, items: seq<Item>, faults: seq<Fault>) returns (r: Result<()>)
    requires |faults| == |items| && DistinctNames(items)
    modifies target
    ensures (target.files, r)
            == PublishFrom(old(target.files), Missing(old(target.files), items),
                           MissingFaults(old(target.files), items, faults), [])
    ensures target.history
            == old(target.history) + Trace(old(target.files), Missing(old(target.files), items),
                                           MissingFaults(old(target.files), items, faults), [])[1..]
  {
    hide PublishFrom, Missing, MissingFaults, Rollback, Trace, RollbackTrace, PublishOne;
    ghost var dst := target.files;
    NothingMissing(target.files);
    assert items[0..] == items && faults[0..] == faults;
    var published: seq<string> := [];
    var i := 0;
    while i < |items|
      invariant 0 <= i <= |items|
      invariant forall j :: i <= j < |items| ==> (items[j].name in target.files <==> items[j].name in dst)
      invariant PublishFrom(target.files, Missing(dst, items[i..]),
                            MissingFaults(dst, items[i..], faults[i..]), published)
                == PublishFrom(dst, Missing(dst, items), MissingFaults(dst, items, faults), [])
      invariant target.history + Trace(target.files, Missing(dst, items[i..]),
                                       MissingFaults(dst, items[i..], faults[i..]), published)[1..]
                == old(target.history)
                   + Trace(dst, Missing(dst, items), MissingFaults(dst, items, faults), [])[1..]
    {
      SkipOrTake(dst, items[i..], faults[i..]);
      assert items[i..][1..] == items[i + 1..] && faults[i..][1..] == faults[i + 1..];
      assert items[i..][0] == items[i] && faults[i..][0] == faults[i];
      if items[i].name !in target.files {
        Turn(target.files, Missing(dst, items[i..]), MissingFaults(dst, items[i..], faults[i..]), published);
        OneApart(target.files, items, i, faults[i]);
        var step := target.AtomicPublish(items[i], faults[i]);
        if step.Err? {
          if step.kind.Refused? {
            target.RollBack(published);
          }
          return step;
        }
        published := published + [items[i].name];
      }
      i := i + 1;
    }
    assert items[i..] == [] && faults[i..] == [];
    NothingMissing(dst);
    Turn(target.files, [], [], published);
    r := Ok(());
  }

  /** Publishing one name leaves the others as they were. */
  lemma OneApart(dir: Directory, items: seq<Item>, i: nat, fault: Fault)
    requires i < |items| && DistinctNames(items)
    ensures forall j :: i < j < |items| ==>
      (items[j].name in PublishOne(dir, items[i], fault).0 <==> items[j].name in dir)
  {
  }

  lemma NothingMissing(dst: Directory)
    ensures Missing(dst, []) == [] && MissingFaults(dst, [], []) == []
  {
  }

  lemma SkipOrTake(dst: Directory, items: seq<Item>, faults: seq<Fault>)
    requires |faults| == |items| && items != []
    ensures items[0].name in dst ==>
      Missing(dst, items) == Missing(dst, items[1..])
      && MissingFaults(dst, items, faults) == MissingFaults(dst, items[1..], faults[1..])
    ensures items[0].name !in dst ==>
      Missing(dst, items) == [items[0]] + Missing(dst, items[1..])
      && MissingFaults(dst, items, faults) == [faults[0]] + MissingFaults(dst, items[1..], faults[1..])
  {
  }

  method DeliverTo(t: Tools, items: seq<Item>, target: Target, copies: seq<Option<string>>, faults: seq<Fault>)
    returns (r: Result<bool>)
    requires |copies| == |items| && |faults| == |items| && DistinctNames(items)
    modifies target
    ensures (target.files, r) == Deliver(t, items, old(target.files), copies, faults)
    ensures target.history == old(target.history) + DeliverTrace(t, items, old(target.files), copies, faults)[1..]
  {
    hide AnyConflict, AllIn, PublishFrom, Missing, MissingFaults, Trace;
    if AnyConflict(t, target.files, items) {
      return Err(Refused);
    }
    if AllIn(target.files, items) {
      return Ok(true);
    }
    var staged := StageCopies(t, items, copies);
    if staged.Err? {
      return Err(staged.kind);
    }
    hide StageCopies;
    var published := PublishMissing(target, staged.value, faults);
    r := if published.Ok? then Ok(false) else Err(published.kind);
  }

  /** transfer, changing the destination in place. */
  method TransferTo(t: Tools, src: Directory, archive: string, target: Target, sameDirectory: bool,
                    copies: seq<Option<string>>, faults: seq<Fault>) returns (r: Result<bool>)
    requires |copies| == 3 && |faults| == 3
    modifies target
    ensures (target.files, r) == TransferInto(t, src, archive, old(target.files), sameDirectory, copies, faults)
    ensures target.history == old(target.history)
                              + TransferTrace(t, src, archive, old(target.files), sameDirectory, copies, faults)[1..]
  {
    hide VerifyOuter, SourceItems, Deliver, DeliverTrace, Complete3;
    var verdict := VerifyOuter(t, src, archive);
    if verdict.Err? {
      return Err(verdict.kind);
    }
    if sameDirectory {
      return Err(Refused);
    }
    VerifiedIsComplete(t, src, archive);
    SourceComplete(src, archive);
    SourceDistinct(src, archive);
    r := DeliverTo(t, SourceItems(src, archive), target, copies, faults);
  }

  lemma SourceComplete(src: Directory, archive: string)
    requires IsFile(src, archive) && IsFile(src, ManifestFile(archive)) && IsFile(src, ChecksumFile(archive))
    ensures Complete3(src, archive)
  {
  }
}
