/** What pack and transfer look like from outside while they run: a reader verifies the point at any moment. */
module Readers {
  import opened Common
  import opened Manifests
  import opened RecoveryPoint
  import opened Publication
  import opened Packing
  import opened Transfer
  import RT = RoundTrip

  // ----- pack -----

  /** In the states of a publication the point is complete as soon as its names are all there. */
  lemma CompleteWhenIn(t: Tools, dir: Directory, state: Directory, archive: string, staged: Staged)
    requires Vacant(dir, archive) && Between(dir, state, PointItems(t, archive, staged))
    ensures Complete3(state, archive) <==> AllIn(state, PointItems(t, archive, staged))
  {
    var items := PointItems(t, archive, staged);
    hide ManifestFile, ChecksumFile;
    assert items[0].name == archive && items[1].name == ManifestFile(archive)
        && items[2].name == ChecksumFile(archive);
  }

  lemma PublicationSeen(t: Tools, dir: Directory, archive: string, staged: Staged, faults: seq<Fault>)
    requires |faults| == 3 && Vacant(dir, archive)
    ensures var trace := Trace(dir, PointItems(t, archive, staged), faults, []);
      && |trace| == TraceLength(faults)
      && (forall k :: 0 <= k < |trace| ==> (Complete3(trace[k], archive) <==> k == 3 && LastLinked(faults)))
  {
    var items := PointItems(t, archive, staged);
    RT.PointFresh(t, dir, archive, staged);
    TogetherAtLastLink(dir, items, faults);
    var trace := Trace(dir, items, faults, []);
    hide *;
    forall k | 0 <= k < |trace|
      ensures Complete3(trace[k], archive) <==> AllIn(trace[k], items)
    {
      TraceBetween(dir, items, faults, k);
      CompleteWhenIn(t, dir, trace[k], archive, staged);
    }
  }

  /** How a publication ends, read off its first fault. */
  function Outcome(faults: seq<Fault>): Result<()> {
    var n := FirstFault(faults);
    if n == |faults| then Ok(()) else if faults[n].SyncFails? then Err(Escaped) else Err(Refused)
  }

  lemma PublicationOutcome(t: Tools, dir: Directory, archive: string, staged: Staged, faults: seq<Fault>)
    requires |faults| == 3 && Vacant(dir, archive)
    ensures PublishFrom(dir, PointItems(t, archive, staged), faults, []).1 == Outcome(faults)
  {
    RT.PointFresh(t, dir, archive, staged);
    PublishLands(dir, PointItems(t, archive, staged), faults);
    hide PublishFrom, Placed, PointItems, Vacant, FirstFault;
  }

  lemma PackableStages(t: Tools, dir: Directory, args: Arguments, components: seq<Component>)
    requires Admitted(dir, args, components)
    ensures args.recipient.Regular? && Vacant(dir, args.archive) && AllRegular(Sort(components))
    ensures RT.Packable(t, dir, args, components) <==> Stage(t, args, Sort(components)).Ok?
  {
    hide Acceptable, PathsAllowed, Sort, Stage, Buildable, Vacant, AllRegular, PlainPayload;
    RT.AcceptableSorted(components);
    RT.AcceptableRegular(Sort(components));
    RT.StageSucceeds(t, args, Sort(components));
  }

  /** A pack that could go ahead, and one that could not. */
  lemma PackTraced(t: Tools, dir: Directory, args: Arguments, components: seq<Component>, faults: seq<Fault>)
    requires |faults| == 3
    ensures var trace := PackTrace(t, dir, args, components, faults);
      if RT.Packable(t, dir, args, components)
      then && |trace| == TraceLength(faults) && PackInto(t, dir, args, components, faults).1 == Outcome(faults)
           && (forall k :: 0 <= k < |trace| ==> (Complete3(trace[k], args.archive) <==> k == 3 && LastLinked(faults)))
      else trace == [dir] && PackInto(t, dir, args, components, faults).0 == dir
  {
    if Admitted(dir, args, components) {
      PackableStages(t, dir, args, components);
      var staged := Stage(t, args, Sort(components));
      hide Admitted, RT.Packable, Vacant, Sort, Stage, PointItems, Trace, PublishFrom, Complete3, FirstFault,
           AllRegular, TraceLength, LastLinked, Outcome;
      if staged.Ok? {
        PublicationSeen(t, dir, args.archive, staged.value, faults);
        PublicationOutcome(t, dir, args.archive, staged.value, faults);
      }
    } else {
      hide Admitted, Complete3, FirstFault, TraceLength, LastLinked, Outcome;
    }
  }

  lemma PackTraceEnds(t: Tools, dir: Directory, args: Arguments, components: seq<Component>, faults: seq<Fault>)
    requires |faults| == 3
    ensures var trace := PackTrace(t, dir, args, components, faults);
      trace[|trace| - 1] == PackInto(t, dir, args, components, faults).0
  {
    if Admitted(dir, args, components) {
      PackableStages(t, dir, args, components);
      var staged := Stage(t, args, Sort(components));
      hide Admitted, RT.Packable, Vacant, Sort, Stage, PointItems, Trace, PublishFrom, AllRegular;
      if staged.Ok? {
        TraceEnds(dir, PointItems(t, args.archive, staged.value), faults, []);
      }
    } else {
      hide Admitted;
    }
  }

  /** The state a reader may accept is the one an undisturbed pack ends in. */
  lemma PackSeenIsWhole(t: Tools, dir: Directory, args: Arguments, components: seq<Component>, faults: seq<Fault>)
    requires |faults| == 3 && RT.Packable(t, dir, args, components) && LastLinked(faults)
    ensures var trace := PackTrace(t, dir, args, components, faults);
      |trace| > 3 && trace[3] == PackInto(t, dir, args, components, Undisturbed()).0
  {
    PackableStages(t, dir, args, components);
    var staged := Stage(t, args, Sort(components)).value;
    RT.PointFresh(t, dir, args.archive, staged);
    StateAtLastLink(dir, PointItems(t, args.archive, staged), faults);
    UndisturbedLands(t, dir, args.archive, staged);
    hide RT.Packable, Admitted, Acceptable, PathsAllowed, Vacant, Sort, Stage, PointItems, Trace, PublishFrom, Placed,
         AllRegular, LastLinked, Fresh, Undisturbed;
  }

  lemma UndisturbedLands(t: Tools, dir: Directory, archive: string, staged: Staged)
    requires Vacant(dir, archive)
    ensures var items := PointItems(t, archive, staged);
      PublishFrom(dir, items, Undisturbed(), []) == (Placed(dir, items), Ok(()))
  {
    RT.PointFresh(t, dir, archive, staged);
    assert FirstFault(Undisturbed()) == 3;
    PublishLands(dir, PointItems(t, archive, staged), Undisturbed());
    hide PublishFrom, PointItems, Placed, FirstFault, Vacant;
  }

  lemma VacantIncomplete(dir: Directory, archive: string)
    requires Vacant(dir, archive)
    ensures !Complete3(dir, archive)
  {
  }

  /**
   * pack is all or nothing for readers: of all the directories it passes through, roll-back included,
   * verification can accept the point in one only, the one its third link makes; that one is where an
   * undisturbed pack ends. The point is there when pack ends exactly when pack could go ahead and nothing
   * failed or only the last flush did.
   */
  lemma PackIsAllOrNothing(
      t: Tools, dir: Directory, args: Arguments, components: seq<Component>, faults: seq<Fault>)
    requires |faults| == 3 && Vacant(dir, args.archive)
    ensures var trace, able := PackTrace(t, dir, args, components, faults), RT.Packable(t, dir, args, components);
      && trace[0] == dir && trace[|trace| - 1] == PackInto(t, dir, args, components, faults).0
      && (forall k :: 0 <= k < |trace| ==>
            (Complete3(trace[k], args.archive) <==> able && k == 3 && LastLinked(faults)))
      && (forall k :: 0 <= k < |trace| && VerifyOuter(t, trace[k], args.archive).Ok? ==>
            able && k == 3 && trace[k] == PackInto(t, dir, args, components, Undisturbed()).0)
      && (Complete3(PackInto(t, dir, args, components, faults).0, args.archive)
          <==> able && (FirstFault(faults) == 3 || (FirstFault(faults) == 2 && faults[2].SyncFails?)))
  {
    var trace := PackTrace(t, dir, args, components, faults);
    PackTraced(t, dir, args, components, faults);
    PackTraceEnds(t, dir, args, components, faults);
    VacantIncomplete(dir, args.archive);
    hide VerifyOuter, Complete3, PackTrace, PackInto, FirstFault, RT.Packable, Vacant;
    forall k | 0 <= k < |trace| && VerifyOuter(t, trace[k], args.archive).Ok?
      ensures Complete3(trace[k], args.archive) && trace[k] == PackInto(t, dir, args, components, Undisturbed()).0
    {
      VerifiedIsComplete(t, trace[k], args.archive);
      SourceComplete(trace[k], args.archive);
      PackSeenIsWhole(t, dir, args, components, faults);
    }
  }

  /** Some reader may have met the complete point. */
  predicate Seen(trace: seq<Directory>, archive: string) {
    exists k :: 0 <= k < |trace| && Complete3(trace[k], archive)
  }

  lemma SeenAtLastLink(trace: seq<Directory>, archive: string, faults: seq<Fault>)
    requires |faults| == 3 && |trace| == TraceLength(faults)
    requires forall k :: 0 <= k < |trace| ==> (Complete3(trace[k], archive) <==> k == 3 && LastLinked(faults))
    ensures Seen(trace, archive) <==> LastLinked(faults)
  {
    hide Complete3, FirstFault;
    if LastLinked(faults) {
      assert Complete3(trace[3], archive);
    }
  }

  lemma SeenWhenRefused(trace: seq<Directory>, archive: string, faults: seq<Fault>)
    requires |faults| == 3 && |trace| == TraceLength(faults)
    requires forall k :: 0 <= k < |trace| ==> (Complete3(trace[k], archive) <==> k == 3 && LastLinked(faults))
    ensures Outcome(faults) == Err(Refused) && Seen(trace, archive)
            <==> FirstFault(faults) == 2 && faults[2].UnlinkFails?
    ensures FirstFault(faults) == 2 && faults[2].UnlinkFails? ==>
      |trace| == 6 && Complete3(trace[3], archive) && !Complete3(trace[4], archive)
  {
    SeenAtLastLink(trace, archive, faults);
    hide FirstFault, Complete3, Seen;
  }

  /**
   * The one window in which a refused pack is visible: pack could go ahead, the third file is linked and its
   * staged name cannot be removed. The next state has lost the second file; the third is left behind.
   */
  lemma RefusedButSeen(t: Tools, dir: Directory, args: Arguments, components: seq<Component>, faults: seq<Fault>)
    requires |faults| == 3 && Vacant(dir, args.archive)
    ensures var trace := PackTrace(t, dir, args, components, faults);
      PackInto(t, dir, args, components, faults).1 == Err(Refused) && Seen(trace, args.archive)
      <==> RT.Packable(t, dir, args, components) && FirstFault(faults) == 2 && faults[2].UnlinkFails?
    ensures RT.Packable(t, dir, args, components) && FirstFault(faults) == 2 && faults[2].UnlinkFails? ==>
      var trace := PackTrace(t, dir, args, components, faults);
      |trace| == 6 && Complete3(trace[3], args.archive) && !Complete3(trace[4], args.archive)
  {
    PackTraced(t, dir, args, components, faults);
    VacantIncomplete(dir, args.archive);
    var trace := PackTrace(t, dir, args, components, faults);
    if RT.Packable(t, dir, args, components) {
      hide *;
      SeenWhenRefused(trace, args.archive, faults);
    } else {
      hide PackInto, PackTrace, RT.Packable, Complete3, FirstFault, Vacant;
    }
  }

  // ----- transfer -----

  lemma {:induction false} MissingAlike(dst: Directory, a: seq<Item>, b: seq<Item>, faults: seq<Fault>)
    requires |a| == |b| == |faults| && forall i :: 0 <= i < |a| ==> a[i].name == b[i].name
    ensures |Missing(dst, a)| == |Missing(dst, b)| && MissingFaults(dst, a, faults) == MissingFaults(dst, b, faults)
    decreases |a|
  {
    if a != [] {
      MissingAlike(dst, a[1..], b[1..], faults[1..]);
    }
  }

  /** A complete set of names has the missing ones. */
  lemma MissingIn(dst: Directory, state: Directory, items: seq<Item>)
    requires AllIn(state, items)
    ensures AllIn(state, Missing(dst, items))
  {
    MissingMembers(dst, items);
    hide Missing;
    forall i | 0 <= i < |Missing(dst, items)|
      ensures Missing(dst, items)[i].name in state
    {
      var m := Missing(dst, items)[i];
      assert m in items;
      var j :| 0 <= j < |items| && items[j] == m;
    }
  }

  /** A delivery that goes ahead is the publication of the missing files. */
  lemma DeliveryPublishes(t: Tools, items: seq<Item>, dst: Directory, copies: seq<Option<string>>, faults: seq<Fault>)
    returns (staged: seq<Item>)
    requires |copies| == |items| == |faults| && DistinctNames(items) && Publishes(t, items, dst, copies)
    ensures |staged| == |items| && forall i :: 0 <= i < |items| ==> staged[i].name == items[i].name
    ensures var missing, met := Missing(dst, staged), MissingFaults(dst, staged, faults);
      && |missing| == |Missing(dst, items)| && met == MissingFaults(dst, items, faults) && Fresh(dst, missing)
      && DeliverTrace(t, items, dst, copies, faults) == Trace(dst, missing, met, [])
      && Deliver(t, items, dst, copies, faults).0 == PublishFrom(dst, missing, met, []).0
    ensures staged == StageCopies(t, items, copies).value
  {
    staged := StageCopies(t, items, copies).value;
    MissingAlike(dst, staged, items, faults);
    MissingFresh(dst, staged);
    hide Trace, PublishFrom, Missing, MissingFaults, Fresh, StageCopies, AnyConflict, AllIn;
  }

  lemma AllInByName(state: Directory, a: seq<Item>, b: seq<Item>)
    requires |a| == |b| && (forall i :: 0 <= i < |a| ==> a[i].name == b[i].name) && AllIn(state, b)
    ensures AllIn(state, a)
  {
  }

  lemma NothingDelivered(t: Tools, items: seq<Item>, dst: Directory, copies: seq<Option<string>>, faults: seq<Fault>)
    requires |copies| == |items| == |faults| && !Publishes(t, items, dst, copies)
    ensures DeliverTrace(t, items, dst, copies, faults) == [dst] && Deliver(t, items, dst, copies, faults).0 == dst
  {
    hide Trace, PublishFrom, Missing, MissingFaults, StageCopies, AnyConflict, AllIn;
  }

  lemma DeliverySeen(t: Tools, items: seq<Item>, dst: Directory, copies: seq<Option<string>>, faults: seq<Fault>)
    requires |copies| == |items| == |faults| && DistinctNames(items) && !AllIn(dst, items)
    ensures var trace, met := DeliverTrace(t, items, dst, copies, faults), MissingFaults(dst, items, faults);
      forall k :: 0 <= k < |trace| && AllIn(trace[k], items) ==>
        Publishes(t, items, dst, copies) && k == |Missing(dst, items)| && LastLinked(met)
  {
    hide *;
    if Publishes(t, items, dst, copies) {
      var staged := DeliveryPublishes(t, items, dst, copies, faults);
      var missing, met := Missing(dst, staged), MissingFaults(dst, staged, faults);
      TogetherAtLastLink(dst, missing, met);
      var trace := Trace(dst, missing, met, []);
      forall k | 0 <= k < |trace| && AllIn(trace[k], items)
        ensures AllIn(trace[k], missing)
      {
        AllInByName(trace[k], staged, items);
        MissingIn(dst, trace[k], staged);
      }
    } else {
      NothingDelivered(t, items, dst, copies, faults);
    }
  }

  /** The state at the last link is where an undisturbed delivery ends. */
  lemma DeliverySeenIsWhole(t: Tools, items: seq<Item>, dst: Directory, copies: seq<Option<string>>, faults: seq<Fault>,
                            clean: seq<Fault>)
    requires |copies| == |items| == |faults| == |clean| && DistinctNames(items)
    requires Publishes(t, items, dst, copies) && LastLinked(MissingFaults(dst, items, faults))
    requires forall i :: 0 <= i < |clean| ==> clean[i].Clean?
    ensures var trace, n := DeliverTrace(t, items, dst, copies, faults), |Missing(dst, items)|;
      |trace| > n && (trace[n], Ok(false)) == Deliver(t, items, dst, copies, clean)
  {
    var staged := DeliveryPublishes(t, items, dst, copies, faults);
    var missing, met := Missing(dst, staged), MissingFaults(dst, staged, faults);
    StateAtLastLink(dst, missing, met);
    CleanDelivers(t, items, dst, copies, clean);
    hide *;
  }

  lemma CleanDelivers(t: Tools, items: seq<Item>, dst: Directory, copies: seq<Option<string>>, clean: seq<Fault>)
    requires |copies| == |items| == |clean| && DistinctNames(items) && Publishes(t, items, dst, copies)
    requires forall i :: 0 <= i < |clean| ==> clean[i].Clean?
    ensures Deliver(t, items, dst, copies, clean)
            == (Placed(dst, Missing(dst, StageCopies(t, items, copies).value)), Ok(false))
  {
    var staged := StageCopies(t, items, copies).value;
    CleanMet(dst, staged, clean);
    MissingFresh(dst, staged);
    PublishLands(dst, Missing(dst, staged), MissingFaults(dst, staged, clean));
    hide PublishFrom, Missing, MissingFaults, Fresh, StageCopies, AnyConflict, AllIn, Placed, FirstFault;
  }

  lemma {:induction false} CleanMet(dst: Directory, items: seq<Item>, clean: seq<Fault>)
    requires |items| == |clean| && forall i :: 0 <= i < |clean| ==> clean[i].Clean?
    ensures FirstFault(MissingFaults(dst, items, clean)) == |MissingFaults(dst, items, clean)|
    decreases |items|
  {
    if items != [] {
      CleanMet(dst, items[1..], clean[1..]);
      var rest := MissingFaults(dst, items[1..], clean[1..]);
      assert ([clean[0]] + rest)[1..] == rest;
      assert [] + rest == rest;
    }
  }

  /** A verified source in another directory is delivered. */
  lemma TransferDelivery(t: Tools, src: Directory, archive: string, dst: Directory,
                         copies: seq<Option<string>>, faults: seq<Fault>)
    requires |copies| == 3 && |faults| == 3 && VerifyOuter(t, src, archive).Ok?
    ensures Complete3(src, archive) && DistinctNames(SourceItems(src, archive))
    ensures TransferInto(t, src, archive, dst, false, copies, faults)
            == Deliver(t, SourceItems(src, archive), dst, copies, faults)
    ensures TransferTrace(t, src, archive, dst, false, copies, faults)
            == DeliverTrace(t, SourceItems(src, archive), dst, copies, faults)
    ensures TransferTrace(t, src, archive, dst, true, copies, faults) == [dst]
    ensures TransferInto(t, src, archive, dst, true, copies, faults).0 == dst
  {
    VerifiedIsComplete(t, src, archive);
    SourceComplete(src, archive);
    SourceDistinct(src, archive);
    hide VerifyOuter, Complete3, Deliver, DeliverTrace, SourceItems;
  }

  /** The one state of a delivery that a reader can accept. */
  lemma DeliveryAccepted(t: Tools, src: Directory, archive: string, dst: Directory, copies: seq<Option<string>>,
                         faults: seq<Fault>, k: nat)
    requires |copies| == 3 && |faults| == 3 && Complete3(src, archive) && DistinctNames(SourceItems(src, archive))
    requires !AllIn(dst, SourceItems(src, archive))
    requires k < |DeliverTrace(t, SourceItems(src, archive), dst, copies, faults)|
    requires VerifyOuter(t, DeliverTrace(t, SourceItems(src, archive), dst, copies, faults)[k], archive).Ok?
    ensures k == |Missing(dst, SourceItems(src, archive))|
    ensures LastLinked(MissingFaults(dst, SourceItems(src, archive), faults))
    ensures (DeliverTrace(t, SourceItems(src, archive), dst, copies, faults)[k], Ok(false))
            == Deliver(t, SourceItems(src, archive), dst, copies, Undisturbed())
  {
    hide *;
    var items := SourceItems(src, archive);
    SeenByReader(t, DeliverTrace(t, items, dst, copies, faults)[k], src, archive);
    DeliverySeen(t, items, dst, copies, faults);
    DeliverySeenIsWhole(t, items, dst, copies, faults, Undisturbed());
  }

  /**
   * transfer is all or nothing for readers at the destination: when the point is not there yet, verification
   * can accept it in one of the states passed through only, the one the link of the last missing file makes,
   * and that is where an undisturbed transfer ends.
   */
  lemma TransferIsAllOrNothing(t: Tools, src: Directory, archive: string, dst: Directory, sameDirectory: bool,
                               copies: seq<Option<string>>, faults: seq<Fault>)
    requires |copies| == 3 && |faults| == 3 && VerifyOuter(t, src, archive).Ok?
    ensures Complete3(src, archive)
    ensures var trace := TransferTrace(t, src, archive, dst, sameDirectory, copies, faults);
      && trace[0] == dst
      && trace[|trace| - 1] == TransferInto(t, src, archive, dst, sameDirectory, copies, faults).0
    ensures !AllIn(dst, SourceItems(src, archive)) ==>
      var trace := TransferTrace(t, src, archive, dst, sameDirectory, copies, faults);
      forall k :: 0 <= k < |trace| && VerifyOuter(t, trace[k], archive).Ok? ==>
        && k == |Missing(dst, SourceItems(src, archive))|
        && LastLinked(MissingFaults(dst, SourceItems(src, archive), faults))
        && (trace[k], Ok(false)) == TransferInto(t, src, archive, dst, sameDirectory, copies, Undisturbed())
  {
    TransferDelivery(t, src, archive, dst, copies, faults);
    TransferDelivery(t, src, archive, dst, copies, Undisturbed());
    var items := SourceItems(src, archive);
    DeliveryEnds(t, items, dst, copies, faults);
    SeenByReader(t, dst, src, archive);
    hide *;
    var trace := TransferTrace(t, src, archive, dst, sameDirectory, copies, faults);
    if !AllIn(dst, items) {
      forall k | 0 <= k < |trace| && VerifyOuter(t, trace[k], archive).Ok?
        ensures !sameDirectory && k == |Missing(dst, items)| && LastLinked(MissingFaults(dst, items, faults))
        ensures (trace[k], Ok(false)) == Deliver(t, items, dst, copies, Undisturbed())
      {
        DeliveryAccepted(t, src, archive, dst, copies, faults, k);
      }
    }
  }

  /** What a reader accepts has all three names. */
  lemma SeenByReader(t: Tools, dir: Directory, src: Directory, archive: string)
    requires Complete3(src, archive)
    ensures VerifyOuter(t, dir, archive).Ok? ==> AllIn(dir, SourceItems(src, archive))
  {
    if VerifyOuter(t, dir, archive).Ok? {
      VerifiedIsComplete(t, dir, archive);
      hide VerifyOuter, EndsWith, SafeName, NoSpace;
      CompleteIn(dir, src, archive);
    }
  }

  lemma CompleteIn(dir: Directory, src: Directory, archive: string)
    requires Complete3(src, archive)
    requires IsFile(dir, archive) && IsFile(dir, ManifestFile(archive)) && IsFile(dir, ChecksumFile(archive))
    ensures AllIn(dir, SourceItems(src, archive))
  {
    hide ManifestFile, ChecksumFile;
    var items := SourceItems(src, archive);
    assert items[0].name == archive && items[1].name == ManifestFile(archive)
        && items[2].name == ChecksumFile(archive);
    hide SourceItems;
  }

  lemma DeliveryEnds(t: Tools, items: seq<Item>, dst: Directory, copies: seq<Option<string>>, faults: seq<Fault>)
    requires |copies| == |items| == |faults| && DistinctNames(items)
    ensures var trace := DeliverTrace(t, items, dst, copies, faults);
      trace[|trace| - 1] == Deliver(t, items, dst, copies, faults).0
  {
    hide *;
    if Publishes(t, items, dst, copies) {
      var staged := DeliveryPublishes(t, items, dst, copies, faults);
      TraceEnds(dst, Missing(dst, staged), MissingFaults(dst, staged, faults), []);
    } else {
      NothingDelivered(t, items, dst, copies, faults);
    }
  }
}
