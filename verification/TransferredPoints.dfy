/** When a transfer succeeds, and what is then at the destination. */
module TransferredPoints {
  import opened Common
  import opened Manifests
  import opened RecoveryPoint
  import opened Publication
  import opened Transfer

  predicate SameDigest(t: Tools, a: string, b: string) { t.sha256(a) == t.sha256(b) }

  /** The destination has a file of the item's name and digest. */
  predicate InPlace(t: Tools, dst: Directory, item: Item) {
    item.name in dst && dst[item.name].Regular? && SameDigest(t, dst[item.name].data, item.data)
  }

  predicate AllThere(dst: Directory, items: seq<Item>) {
    forall i :: 0 <= i < |items| ==> items[i].name in dst
  }

  /** What is there is in place already. */
  predicate NothingDiffers(t: Tools, dst: Directory, items: seq<Item>) {
    forall i :: 0 <= i < |items| ==> items[i].name in dst ==> InPlace(t, dst, items[i])
  }

  /** Every file is copied true, whether or not it is then needed. */
  predicate CopiedTrue(t: Tools, items: seq<Item>, copies: seq<Option<string>>)
    requires |copies| == |items|
  {
    forall i :: 0 <= i < |items| ==> copies[i] != None && SameDigest(t, copies[i].value, items[i].data)
  }

  /** No fault meets the publication of a file the destination lacks. */
  predicate PublishedCleanly(dst: Directory, items: seq<Item>, faults: seq<Fault>)
    requires |faults| == |items|
  {
    forall i :: 0 <= i < |items| && items[i].name !in dst ==> faults[i] == Clean
  }

  /** The destination keeps what it had and gains the files it lacked, as they were copied. */
  predicate Gains(dst: Directory, after: Directory, items: seq<Item>, copies: seq<Option<string>>)
    requires |copies| == |items|
  {
    && (forall n :: n in dst ==> n in after && after[n] == dst[n])
    && (forall n :: n in after && n !in dst ==> exists i :: 0 <= i < |items| && items[i].name == n)
    && forall i :: 0 <= i < |items| && items[i].name !in dst ==>
         items[i].name in after && copies[i] != None && after[items[i].name] == Regular(copies[i].value)
  }

  lemma {:induction false} StagesExactly(t: Tools, items: seq<Item>, copies: seq<Option<string>>)
    requires |copies| == |items|
    ensures StageCopies(t, items, copies).Ok? <==> CopiedTrue(t, items, copies)
    ensures StageCopies(t, items, copies).Ok? ==>
      var staged := StageCopies(t, items, copies).value;
      |staged| == |items| && forall i :: 0 <= i < |items| ==>
        copies[i].Some? && staged[i] == Item(items[i].name, copies[i].value)
  {
    if items != [] {
      var rest, copies1 := items[1..], copies[1..];
      StagesExactly(t, rest, copies1);
      assert CopiedTrue(t, items, copies) ==> CopiedTrue(t, rest, copies1);
      if CopiedTrue(t, rest, copies1) && copies[0] != None && SameDigest(t, copies[0].value, items[0].data) {
        forall i | 0 <= i < |items|
          ensures copies[i] != None && SameDigest(t, copies[i].value, items[i].data)
        {
          if i > 0 {
            assert rest[i - 1] == items[i] && copies1[i - 1] == copies[i];
          }
        }
      }
    }
  }

  lemma FirstAfterAll(faults: seq<Fault>)
    ensures FirstFault(faults) == |faults| <==> AllClean(faults)
  {
    hide FirstFault;
    assert forall i :: 0 <= i < |faults| ==> faults[i] in faults;
  }

  predicate AllClean(faults: seq<Fault>) { forall f :: f in faults ==> f == Clean }

  lemma AllCleanCons(fault: Fault, rest: seq<Fault>)
    ensures AllClean([fault] + rest) <==> fault == Clean && AllClean(rest)
  {
    assert fault in [fault] + rest && forall f :: f in rest ==> f in [fault] + rest;
  }

  lemma {:induction false} MissingClean(dst: Directory, items: seq<Item>, faults: seq<Fault>)
    requires |faults| == |items|
    ensures AllClean(MissingFaults(dst, items, faults)) <==> PublishedCleanly(dst, items, faults)
  {
    if items != [] {
      MissingClean(dst, items[1..], faults[1..]);
      CleanStep(dst, items, faults);
      SkipOrTake(dst, items, faults);
      AllCleanCons(faults[0], MissingFaults(dst, items[1..], faults[1..]));
      hide PublishedCleanly, MissingFaults, AllClean;
    }
  }

  lemma CleanStep(dst: Directory, items: seq<Item>, faults: seq<Fault>)
    requires |faults| == |items| && items != []
    ensures PublishedCleanly(dst, items, faults)
            <==> (items[0].name !in dst ==> faults[0] == Clean) && PublishedCleanly(dst, items[1..], faults[1..])
  {
    var rest, faults1 := items[1..], faults[1..];
    if PublishedCleanly(dst, rest, faults1) && (items[0].name !in dst ==> faults[0] == Clean) {
      forall i | 0 <= i < |items| && items[i].name !in dst
        ensures faults[i] == Clean
      {
        if i > 0 {
          assert rest[i - 1] == items[i] && faults1[i - 1] == faults[i];
        }
      }
    }
    assert forall i :: 0 <= i < |rest| ==> rest[i] == items[i + 1] && faults1[i] == faults[i + 1];
  }

  lemma ConflictsExactly(t: Tools, dst: Directory, items: seq<Item>)
    ensures !AnyConflict(t, dst, items) <==> NothingDiffers(t, dst, items)
    ensures AllIn(dst, items) <==> AllThere(dst, items)
  {
    forall i | 0 <= i < |items|
      ensures !Conflicts(t, dst, items[i]) <==> (items[i].name in dst ==> InPlace(t, dst, items[i]))
    {
    }
    hide Conflicts, InPlace;
  }

  lemma NamesPresence(dst: Directory, items: seq<Item>, faults: seq<Fault>)
    requires |faults| == |items|
    ensures FirstFault(MissingFaults(dst, items, faults)) == |Missing(dst, items)|
            <==> PublishedCleanly(dst, items, faults)
  {
    hide *;
    MissingClean(dst, items, faults);
    FirstAfterAll(MissingFaults(dst, items, faults));
  }

  /** Presence at the destination depends on the names alone. */
  lemma SameNames(dst: Directory, items: seq<Item>, staged: seq<Item>, faults: seq<Fault>)
    requires |staged| == |items| && |faults| == |items|
    requires forall i :: 0 <= i < |items| ==> staged[i].name == items[i].name
    ensures PublishedCleanly(dst, staged, faults) <==> PublishedCleanly(dst, items, faults)
  {
  }

  /** Files placed under new names are those of some copies whose names were missing. */
  lemma PlacedGains(dst: Directory, missing: seq<Item>, items: seq<Item>, staged: seq<Item>,
                    copies: seq<Option<string>>)
    requires |copies| == |items| == |staged| && Fresh(dst, missing)
    requires forall i :: 0 <= i < |items| ==> copies[i].Some? && staged[i] == Item(items[i].name, copies[i].value)
    requires forall m :: m in missing <==> m in staged && m.name !in dst
    ensures Gains(dst, Placed(dst, missing), items, copies)
  {
    var after := Placed(dst, missing);
    PlacedContents(dst, missing);
    hide Placed, Fresh;
    forall n | n in after && n !in dst
      ensures exists i :: 0 <= i < |items| && items[i].name == n
    {
      NamedItem(missing, n);
      var m :| m in missing && m.name == n;
      var i :| 0 <= i < |staged| && staged[i] == m;
      assert items[i].name == n;
    }
    hide NamesOf, ToSet;
    forall i | 0 <= i < |items| && items[i].name !in dst
      ensures items[i].name in after && after[items[i].name] == Regular(copies[i].value)
    {
      assert staged[i] in missing;
      PlacedOne(dst, missing, staged[i]);
    }
  }

  lemma NamedItem(items: seq<Item>, n: string)
    requires n in ToSet(NamesOf(items))
    ensures exists m :: m in items && m.name == n
  {
    var k :| 0 <= k < |items| && NamesOf(items)[k] == n;
    assert items[k] in items;
  }

  lemma PlacedOne(dst: Directory, items: seq<Item>, item: Item)
    requires Fresh(dst, items) && item in items
    ensures item.name in Placed(dst, items) && Placed(dst, items)[item.name] == Regular(item.data)
  {
    PlacedHas(dst, items, item);
  }

  lemma LandedGains(t: Tools, dst: Directory, items: seq<Item>, staged: seq<Item>, copies: seq<Option<string>>,
                    faults: seq<Fault>)
    requires |copies| == |items| == |staged| == |faults| && DistinctNames(staged) && Fresh(dst, Missing(dst, staged))
    requires forall i :: 0 <= i < |items| ==> copies[i].Some? && staged[i] == Item(items[i].name, copies[i].value)
    requires Landing(dst, Missing(dst, staged), MissingFaults(dst, staged, faults)).1.Ok?
    ensures Gains(dst, Landing(dst, Missing(dst, staged), MissingFaults(dst, staged, faults)).0, items, copies)
  {
    var missing := Missing(dst, staged);
    assert Landing(dst, missing, MissingFaults(dst, staged, faults)).0 == Placed(dst, missing);
    hide Landing, Missing, MissingFaults, Placed, Fresh, DistinctNames, Gains;
    MissingMembers(dst, staged);
    PlacedGains(dst, missing, items, staged, copies);
  }

  /** Copies that could be made good, and nothing in the way of the missing files. */
  predicate Brings(t: Tools, items: seq<Item>, dst: Directory, copies: seq<Option<string>>, faults: seq<Fault>)
    requires |copies| == |items| && |faults| == |items|
  {
    CopiedTrue(t, items, copies) && PublishedCleanly(dst, items, faults)
  }

  /** A delivery of files under different names: when it succeeds, what it reports, what it leaves. */
  lemma DeliversExactly(t: Tools, items: seq<Item>, dst: Directory, copies: seq<Option<string>>, faults: seq<Fault>)
    requires |copies| == |items| && |faults| == |items| && DistinctNames(items)
    ensures var (after, r) := Deliver(t, items, dst, copies, faults);
      && (r.Ok? <==> NothingDiffers(t, dst, items) && (AllThere(dst, items) || Brings(t, items, dst, copies, faults)))
      && (r.Ok? ==>
            r.value == AllThere(dst, items) && if r.value then after == dst else Gains(dst, after, items, copies))
  {
    ConflictsExactly(t, dst, items);
    StagesExactly(t, items, copies);
    hide AnyConflict, AllIn, NothingDiffers, AllThere, CopiedTrue, PublishedCleanly, Gains, PublishFrom, Landing,
         Missing, MissingFaults, StageCopies, DistinctNames, Fresh;
    if Publishes(t, items, dst, copies) {
      var staged := StageCopies(t, items, copies).value;
      DeliverLands(t, items, dst, copies, faults);
      hide Deliver;
      NamesPresence(dst, staged, faults);
      SameNames(dst, items, staged, faults);
      LandingOk(dst, Missing(dst, staged), MissingFaults(dst, staged, faults));
      if Deliver(t, items, dst, copies, faults).1.Ok? {
        LandedGains(t, dst, items, staged, copies, faults);
      }
    }
  }

  lemma LandingOk(dir: Directory, items: seq<Item>, faults: seq<Fault>)
    requires |faults| == |items|
    ensures Landing(dir, items, faults).1.Ok? <==> FirstFault(faults) == |items|
  {
    hide Placed, FirstFault;
  }

  /** The files of a point: the archive, its manifest and its checksum. */
  predicate PointFiles(src: Directory, archive: string, items: seq<Item>) {
    && |items| == 3 && items[0].name == archive && items[1].name == archive + ".manifest.json"
    && items[2].name == archive + ".sha256"
    && forall i :: 0 <= i < 3 ==> items[i].name in src && src[items[i].name] == Regular(items[i].data)
  }

  /**
   * A point is transferred exactly when it verifies, the destination is another directory where nothing of
   * its names differs, and either all is there already or all copies are true and no publication fails.
   */
  lemma TransfersExactly(t: Tools, src: Directory, archive: string, dst: Directory, sameDirectory: bool,
                         copies: seq<Option<string>>, faults: seq<Fault>, items: seq<Item>)
    requires |copies| == 3 && |faults| == 3 && PointFiles(src, archive, items)
    ensures var (after, r) := TransferInto(t, src, archive, dst, sameDirectory, copies, faults);
      && (r.Ok? <==>
          && VerifyOuter(t, src, archive).Ok? && !sameDirectory && NothingDiffers(t, dst, items)
          && (AllThere(dst, items) || Brings(t, items, dst, copies, faults)))
      && (r.Ok? ==>
            r.value == AllThere(dst, items) && if r.value then after == dst else Gains(dst, after, items, copies))
  {
    hide *;
    if VerifyOuter(t, src, archive).Ok? && !sameDirectory {
      TransferIs(t, src, archive, dst, copies, faults, items);
      DeliversExactly(t, items, dst, copies, faults);
    } else {
      TransferRefused(t, src, archive, dst, sameDirectory, copies, faults);
    }
  }

  lemma ItemsAre(src: Directory, archive: string, items: seq<Item>)
    requires Complete3(src, archive) && PointFiles(src, archive, items)
    ensures items == SourceItems(src, archive)
  {
    var source := SourceItems(src, archive);
    assert items[0] == source[0] && items[1] == source[1] && items[2] == source[2];
  }

  lemma TransferIs(t: Tools, src: Directory, archive: string, dst: Directory, copies: seq<Option<string>>,
                   faults: seq<Fault>, items: seq<Item>)
    requires |copies| == 3 && |faults| == 3 && PointFiles(src, archive, items) && VerifyOuter(t, src, archive).Ok?
    ensures |items| == 3 && DistinctNames(items)
    ensures TransferInto(t, src, archive, dst, false, copies, faults) == Deliver(t, items, dst, copies, faults)
  {
    hide VerifyOuter, Deliver, DistinctNames, SourceItems, PointFiles, IsFile, ManifestFile, ChecksumFile;
    VerifiedIsComplete(t, src, archive);
    SourceDistinct(src, archive);
    ItemsAre(src, archive, items);
    hide *;
  }

  lemma TransferRefused(t: Tools, src: Directory, archive: string, dst: Directory, sameDirectory: bool,
                        copies: seq<Option<string>>, faults: seq<Fault>)
    requires |copies| == 3 && |faults| == 3 && (VerifyOuter(t, src, archive).Err? || sameDirectory)
    ensures TransferInto(t, src, archive, dst, sameDirectory, copies, faults).1.Err?
  {
    hide VerifyOuter, Deliver, SourceItems;
  }
}
