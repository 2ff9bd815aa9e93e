/**
 * Placing staged files into a directory one by one, with rollback: the shared tail of
 * pack and transfer in tools/backup/m29_backup.py.
 */
module Publication {
  import opened Common
  import opened RecoveryPoint

  /**
   * How one atomic_publish can go wrong: the link is refused; the link stands but the staged name
   * cannot be removed (both are caught and reported as refusals); or flushing the directory
   * raises an error the callers do not catch.
   */
  datatype Fault = Clean | LinkFails | UnlinkFails | SyncFails

  datatype Item = Item(name: string, data: string)

  function Put(dir: Directory, item: Item): Directory {
    dir[item.name := Regular(item.data)]
  }

  /** atomic_publish: never replaces an existing name. */
  function PublishOne(dir: Directory, item: Item, fault: Fault): (r: (Directory, Result<()>))
    ensures forall n :: n in dir ==> n in r.0 && r.0[n] == dir[n]
  {
    if item.name in dir || fault.LinkFails? then (dir, Err(Refused))
    else if fault.UnlinkFails? then (Put(dir, item), Err(Refused))
    else if fault.SyncFails? then (Put(dir, item), Err(Escaped))
    else (Put(dir, item), Ok(()))
  }

  function Rollback(dir: Directory, published: seq<string>): Directory {
    dir - ToSet(published)
  }

  /** The publication loop: a refusal takes back what was published, any other error does not. */
  function PublishFrom(dir: Directory, items: seq<Item>, faults: seq<Fault>, published: seq<string>)
    : (Directory, Result<()>)
    requires |faults| == |items|
    decreases |items|
  {
    if items == [] then (dir, Ok(()))
    else
      var (after, r) := PublishOne(dir, items[0], faults[0]);
      match r
      case Ok(_) => PublishFrom(after, items[1..], faults[1..], published + [items[0].name])
      case Err(Refused) => (Rollback(after, published), r)
      case Err(Escaped) => (after, r)
  }

  function Placed(dir: Directory, items: seq<Item>): Directory
    decreases |items|
  {
    if items == [] then dir else Placed(Put(dir, items[0]), items[1..])
  }

  function NamesOf(items: seq<Item>): (names: seq<string>)
    ensures |names| == |items|
    ensures forall i :: 0 <= i < |items| ==> names[i] == items[i].name
  {
    if items == [] then [] else [items[0].name] + NamesOf(items[1..])
  }

  ghost predicate Fresh(dir: Directory, items: seq<Item>) {
    NoDuplicates(NamesOf(items)) && forall i :: 0 <= i < |items| ==> items[i].name !in dir
  }

  function FirstFault(faults: seq<Fault>): (k: nat)
    ensures k <= |faults|
    ensures forall i :: 0 <= i < k ==> faults[i].Clean?
    ensures k < |faults| ==> !faults[k].Clean?
  {
    if faults == [] || !faults[0].Clean? then 0 else 1 + FirstFault(faults[1..])
  }

  /** Where a publication of new names ends up, read off its first fault. */
  function Landing(dir: Directory, items: seq<Item>, faults: seq<Fault>): (Directory, Result<()>)
    requires |faults| == |items|
  {
    var k := FirstFault(faults);
    if k == |faults| then (Placed(dir, items), Ok(()))
    else match faults[k]
      case UnlinkFails => (Put(dir, items[k]), Err(Refused))
      case SyncFails => (Placed(dir, items[..k + 1]), Err(Escaped))
      case _ => (dir, Err(Refused))
  }

  lemma NamesCons(items: seq<Item>)
    requires items != []
    ensures NamesOf(items) == [items[0].name] + NamesOf(items[1..])
    ensures ToSet(NamesOf(items)) == {items[0].name} + ToSet(NamesOf(items[1..]))
  {
    assert NamesOf(items) == [items[0].name] + NamesOf(items[1..]);
  }

  lemma {:induction false} PlacedContents(dir: Directory, items: seq<Item>)
    requires Fresh(dir, items)
    ensures Placed(dir, items).Keys == dir.Keys + ToSet(NamesOf(items))
    ensures forall n :: n in dir ==> Placed(dir, items)[n] == dir[n]
    ensures forall i :: 0 <= i < |items| ==> Placed(dir, items)[items[i].name] == Regular(items[i].data)
    decreases |items|
  {
    if items != [] {
      FreshRest(dir, items);
      PlacedContents(Put(dir, items[0]), items[1..]);
      NamesCons(items);
      assert items[0].name !in dir;
      hide Fresh, NamesOf, ToSet;
      assert forall i :: 1 <= i < |items| ==> items[i] == items[1..][i - 1];
    } else {
      hide Fresh;
    }
  }

  lemma FreshRest(dir: Directory, items: seq<Item>)
    requires items != [] && Fresh(dir, items)
    ensures Fresh(Put(dir, items[0]), items[1..])
  {
    var names := NamesOf(items);
    assert NamesOf(items[1..]) == names[1..];
    forall i | 0 <= i < |items[1..]|
      ensures items[1..][i].name != items[0].name
    {
      assert names[0] != names[i + 1];
    }
  }

  lemma FreshPrefix(dir: Directory, items: seq<Item>, k: nat)
    requires k <= |items| && Fresh(dir, items)
    ensures Fresh(dir, items[..k])
  {
    assert NamesOf(items[..k]) == NamesOf(items)[..k];
  }

  /** Taking back all that was placed restores the directory. */
  lemma RollbackRestores(dir: Directory, items: seq<Item>)
    requires Fresh(dir, items)
    ensures Rollback(Placed(dir, items), NamesOf(items)) == dir
  {
    PlacedContents(dir, items);
    assert dir.Keys !! ToSet(NamesOf(items));
  }

  lemma {:induction false} PlacedAppend(dir: Directory, items: seq<Item>, last: Item)
    ensures Placed(dir, items + [last]) == Put(Placed(dir, items), last)
    decreases |items|
  {
    if items != [] {
      assert (items + [last])[1..] == items[1..] + [last];
      PlacedAppend(Put(dir, items[0]), items[1..], last);
    }
  }

  lemma NextIsNew(dir: Directory, items: seq<Item>, i: nat)
    requires i < |items| && Fresh(dir, items)
    ensures items[i].name !in Placed(dir, items[..i])
  {
    FreshPrefix(dir, items, i);
    PlacedContents(dir, items[..i]);
    assert forall j :: 0 <= j < i ==> NamesOf(items)[j] != NamesOf(items)[i];
  }

  lemma FaultyStep(dir: Directory, items: seq<Item>, faults: seq<Fault>, i: nat)
    requires |faults| == |items| && i == FirstFault(faults) < |items|
    requires Fresh(dir, items)
    ensures PublishFrom(Placed(dir, items[..i]), items[i..], faults[i..], NamesOf(items[..i]))
            == Landing(dir, items, faults)
  {
    var here, published := Placed(dir, items[..i]), NamesOf(items[..i]);
    NextIsNew(dir, items, i);
    FreshPrefix(dir, items, i);
    RollbackRestores(dir, items[..i]);
    PlacedAppend(dir, items[..i], items[i]);
    assert items[..i + 1] == items[..i] + [items[i]];
    assert items[i].name !in published by {
      PlacedContents(dir, items[..i]);
    }
    RollbackKeeps(here, items[i], published);
    hide Placed, NamesOf, Rollback;
    assert items[i..][0] == items[i] && faults[i..][0] == faults[i];
  }

  lemma CleanStep(dir: Directory, items: seq<Item>, faults: seq<Fault>, i: nat)
    requires |faults| == |items| && i < FirstFault(faults)
    requires Fresh(dir, items)
    ensures PublishFrom(Placed(dir, items[..i]), items[i..], faults[i..], NamesOf(items[..i]))
            == PublishFrom(Placed(dir, items[..i + 1]), items[i + 1..], faults[i + 1..], NamesOf(items[..i + 1]))
  {
    NextIsNew(dir, items, i);
    PlacedAppend(dir, items[..i], items[i]);
    assert items[..i + 1] == items[..i] + [items[i]];
    assert NamesOf(items[..i + 1]) == NamesOf(items[..i]) + [items[i].name];
    assert items[i..][1..] == items[i + 1..] && faults[i..][1..] == faults[i + 1..];
    hide Placed, NamesOf;
    assert items[i..][0] == items[i] && faults[i..][0] == faults[i];
  }

  /** From the i-th step on, with i files placed and recorded, the loop lands where Landing says. */
  lemma {:induction false} PublishLandsFrom(dir: Directory, items: seq<Item>, faults: seq<Fault>, i: nat)
    requires |faults| == |items| && i <= FirstFault(faults)
    requires Fresh(dir, items)
    ensures PublishFrom(Placed(dir, items[..i]), items[i..], faults[i..], NamesOf(items[..i]))
            == Landing(dir, items, faults)
    decreases |items| - i
  {
    if i == |items| {
      assert items[..i] == items;
    } else if i == FirstFault(faults) {
      FaultyStep(dir, items, faults, i);
    } else {
      CleanStep(dir, items, faults, i);
      PublishLandsFrom(dir, items, faults, i + 1);
    }
  }

  lemma RollbackKeeps(dir: Directory, item: Item, published: seq<string>)
    requires item.name !in published
    ensures Rollback(Put(dir, item), published) == Put(Rollback(dir, published), item)
  {
  }

  /** The loop and the first-fault account of it agree for every fault script. */
  lemma PublishLands(dir: Directory, items: seq<Item>, faults: seq<Fault>)
    requires |faults| == |items| && Fresh(dir, items)
    ensures PublishFrom(dir, items, faults, []) == Landing(dir, items, faults)
  {
    assert items[..0] == [] && items[0..] == items && faults[0..] == faults;
    PublishLandsFrom(dir, items, faults, 0);
  }

  /**
   * A failed publication restores the directory exactly when its first fault refuses the link;
   * a link that outlives its staged name, or a failed flush, leaves files behind.
   */
  lemma FailureRestoresExactly(dir: Directory, items: seq<Item>, faults: seq<Fault>)
    requires |faults| == |items| && Fresh(dir, items)
    requires PublishFrom(dir, items, faults, []).1.Err?
    ensures FirstFault(faults) < |faults|
    ensures PublishFrom(dir, items, faults, []).0 == dir <==> faults[FirstFault(faults)].LinkFails?
  {
    PublishLands(dir, items, faults);
    var k := FirstFault(faults);
    if faults[k].SyncFails? {
      FreshPrefix(dir, items, k + 1);
      PlacedContents(dir, items[..k + 1]);
      assert items[..k + 1][k].name in NamesOf(items[..k + 1]);
    }
  }

  /** A concrete failure that leaves a file behind: the first link stands, its staged name cannot be removed. */
  lemma OutlivedLink(item: Item)
    ensures PublishFrom(map[], [item], [UnlinkFails], []) == (map[item.name := Regular(item.data)], Err(Refused))
    ensures PublishFrom(map[], [item], [UnlinkFails], []).0 != map[]
  {
    var after: Directory := map[item.name := Regular(item.data)];
    assert Put(map[], item) == after;
    assert Rollback(after, []) == after;
    assert item.name in after;
  }

  // ----- the states passed through -----

  /** The directory after each unlink of a rollback, which goes from the last published name to the first. */
  function RollbackTrace(dir: Directory, published: seq<string>): (trace: seq<Directory>)
    ensures |trace| == |published|
  {
    if published == [] then []
    else
      var n := |published| - 1;
      [dir - {published[n]}] + RollbackTrace(dir - {published[n]}, published[..n])
  }

  /** Every directory a reader can meet: the one before, one a publication, and one an unlink of the rollback. */
  function Trace(dir: Directory, items: seq<Item>, faults: seq<Fault>, published: seq<string>)
    : (trace: seq<Directory>)
    requires |faults| == |items|
    ensures trace != [] && trace[0] == dir
    decreases |items|
  {
    if items == [] then [dir]
    else
      var (after, r) := PublishOne(dir, items[0], faults[0]);
      match r
      case Ok(_) => [dir] + Trace(after, items[1..], faults[1..], published + [items[0].name])
      case Err(Refused) => [dir, after] + RollbackTrace(after, published)
      case Err(Escaped) => [dir, after]
  }

  lemma {:induction false} RollbackTraceEnds(dir: Directory, published: seq<string>)
    ensures published != [] ==> RollbackTrace(dir, published)[|published| - 1] == Rollback(dir, published)
    ensures published == [] ==> Rollback(dir, published) == dir
    decreases |published|
  {
    if published != [] {
      var n := |published| - 1;
      RollbackTraceEnds(dir - {published[n]}, published[..n]);
      assert published == published[..n] + [published[n]];
      assert ToSet(published) == ToSet(published[..n]) + {published[n]};
    }
  }

  /** The trace ends in the directory the publication leaves. */
  lemma {:induction false} TraceEnds(dir: Directory, items: seq<Item>, faults: seq<Fault>, published: seq<string>)
    requires |faults| == |items|
    ensures var trace := Trace(dir, items, faults, published);
      trace[|trace| - 1] == PublishFrom(dir, items, faults, published).0
    decreases |items|
  {
    hide RollbackTrace, Rollback;
    if items != [] {
      var (after, r) := PublishOne(dir, items[0], faults[0]);
      match r
      case Ok(_) => TraceEnds(after, items[1..], faults[1..], published + [items[0].name]);
      case Err(Refused) => RollbackTraceEnds(after, published);
      case Err(Escaped) =>
    }
  }

  /** What a failed publication adds to the files placed before it. */
  function With(dir: Directory, extra: Option<Item>): Directory {
    if extra.None? then dir else Put(dir, extra.value)
  }

  lemma TakenBack(dir: Directory, items: seq<Item>, m: nat, extra: Option<Item>)
    requires m < |items| && Fresh(dir, items) && (extra.Some? ==> extra.value.name != items[m].name)
    ensures With(Placed(dir, items[..m + 1]), extra) - {items[m].name} == With(Placed(dir, items[..m]), extra)
  {
    NextIsNew(dir, items, m);
    PlacedAppend(dir, items[..m], items[m]);
    assert items[..m + 1] == items[..m] + [items[m]];
    hide Placed, Fresh;
  }

  /** The files taken back one by one, from n of them to none, with what the failed publication added. */
  function Descend(dir: Directory, items: seq<Item>, n: nat, extra: Option<Item>): (states: seq<Directory>)
    requires n <= |items|
    ensures |states| == n + 1
    ensures forall j :: 0 <= j <= n ==> states[j] == With(Placed(dir, items[..n - j]), extra)
  {
    [With(Placed(dir, items[..n]), extra)] + if n == 0 then [] else Descend(dir, items, n - 1, extra)
  }

  lemma ExtraIsNew(dir: Directory, items: seq<Item>, n: nat)
    requires n < |items| && Fresh(dir, items)
    ensures forall i :: 0 <= i < n ==> items[n].name != items[i].name
  {
    assert forall i :: 0 <= i < n ==> NamesOf(items)[i] != NamesOf(items)[n];
  }

  /** A rollback passes through the states the files were placed in, backwards. */
  lemma {:induction false} RollbackStates(dir: Directory, items: seq<Item>, m: nat, extra: Option<Item>)
    requires m <= |items| && Fresh(dir, items)
    requires extra.Some? ==> forall i :: 0 <= i < m ==> extra.value.name != items[i].name
    ensures var top := With(Placed(dir, items[..m]), extra);
      [top] + RollbackTrace(top, NamesOf(items[..m])) == Descend(dir, items, m, extra)
    decreases m
  {
    hide Placed, With, Fresh;
    if m > 0 {
      TakenBack(dir, items, m - 1, extra);
      RollbackStates(dir, items, m - 1, extra);
      var names := NamesOf(items[..m]);
      assert names[m - 1] == items[m - 1].name;
      assert names[..m - 1] == NamesOf(items[..m - 1]);
      hide NamesOf;
    }
  }

  /** The directories from the first fault on. */
  function FaultTail(dir: Directory, items: seq<Item>, faults: seq<Fault>): seq<Directory>
    requires |faults| == |items|
  {
    var n := FirstFault(faults);
    if n == |faults| then []
    else match faults[n]
      case UnlinkFails => Descend(dir, items, n, Some(items[n]))
      case SyncFails => [Placed(dir, items[..n + 1])]
      case _ => Descend(dir, items, n, None)
  }

  /** The trace of a publication by its first step. */
  lemma TraceHead(dir: Directory, items: seq<Item>, faults: seq<Fault>, published: seq<string>)
    requires |faults| == |items| && items != [] && items[0].name !in dir
    ensures Trace(dir, items, faults, published)
            == match faults[0]
               case Clean => [dir] + Trace(Put(dir, items[0]), items[1..], faults[1..], published + [items[0].name])
               case LinkFails => [dir, dir] + RollbackTrace(dir, published)
               case UnlinkFails => [dir, Put(dir, items[0])] + RollbackTrace(Put(dir, items[0]), published)
               case SyncFails => [dir, Put(dir, items[0])]
  {
    hide RollbackTrace;
  }

  /** The trace from a state before a faulty step: that state, and then the tail. */
  lemma FaultByParts(dir: Directory, items: seq<Item>, faults: seq<Fault>, n: nat, trace: seq<Directory>,
                     here: Directory, published: seq<string>)
    requires |faults| == |items| && n == FirstFault(faults) < |items|
    requires here == Placed(dir, items[..n]) && Put(here, items[n]) == Placed(dir, items[..n + 1])
    requires trace == match faults[n]
                      case Clean => []
                      case LinkFails => [here, here] + RollbackTrace(here, published)
                      case UnlinkFails => [here, Put(here, items[n])] + RollbackTrace(Put(here, items[n]), published)
                      case SyncFails => [here, Put(here, items[n])]
    requires [here] + RollbackTrace(here, published) == Descend(dir, items, n, None)
    requires [Put(here, items[n])] + RollbackTrace(Put(here, items[n]), published)
             == Descend(dir, items, n, Some(items[n]))
    ensures trace == [here] + FaultTail(dir, items, faults)
  {
    hide Placed, RollbackTrace, FirstFault, Descend, Put;
    if faults[n].LinkFails? {
      assert trace == [here] + ([here] + RollbackTrace(here, published));
    } else if faults[n].UnlinkFails? {
      var top := Put(here, items[n]);
      assert trace == [here] + ([top] + RollbackTrace(top, published));
    }
  }

  lemma FaultTrace(dir: Directory, items: seq<Item>, faults: seq<Fault>, n: nat)
    requires |faults| == |items| && n == FirstFault(faults) < |items| && Fresh(dir, items)
    ensures Trace(Placed(dir, items[..n]), items[n..], faults[n..], NamesOf(items[..n]))
            == [Placed(dir, items[..n])] + FaultTail(dir, items, faults)
  {
    NextIsNew(dir, items, n);
    PlacedAppend(dir, items[..n], items[n]);
    ExtraIsNew(dir, items, n);
    var here, published := Placed(dir, items[..n]), NamesOf(items[..n]);
    assert items[..n + 1] == items[..n] + [items[n]] && items[n..][0] == items[n] && faults[n..][0] == faults[n];
    TraceHead(here, items[n..], faults[n..], published);
    RollbackStates(dir, items, n, None);
    RollbackStates(dir, items, n, Some(items[n]));
    assert With(here, None) == here && With(here, Some(items[n])) == Put(here, items[n]);
    hide *;
    FaultByParts(dir, items, faults, n, Trace(here, items[n..], faults[n..], published), here, published);
  }

  lemma CleanTrace(dir: Directory, items: seq<Item>, faults: seq<Fault>, i: nat)
    requires |faults| == |items| && i < FirstFault(faults) && Fresh(dir, items)
    ensures Trace(Placed(dir, items[..i]), items[i..], faults[i..], NamesOf(items[..i]))
            == [Placed(dir, items[..i])]
               + Trace(Placed(dir, items[..i + 1]), items[i + 1..], faults[i + 1..], NamesOf(items[..i + 1]))
  {
    NextIsNew(dir, items, i);
    PlacedAppend(dir, items[..i], items[i]);
    assert items[..i + 1] == items[..i] + [items[i]];
    assert NamesOf(items[..i + 1]) == NamesOf(items[..i]) + [items[i].name];
    assert items[i..][1..] == items[i + 1..] && faults[i..][1..] == faults[i + 1..];
    TraceHead(Placed(dir, items[..i]), items[i..], faults[i..], NamesOf(items[..i]));
    hide Placed, NamesOf, Trace, Fresh;
  }

  /** The files placed one by one, from i of them to n. */
  function Climb(dir: Directory, items: seq<Item>, i: nat, n: nat): (states: seq<Directory>)
    requires i <= n <= |items|
    ensures |states| == n + 1 - i
    ensures forall j :: 0 <= j <= n - i ==> states[j] == Placed(dir, items[..i + j])
    decreases n - i
  {
    [Placed(dir, items[..i])] + if i == n then [] else Climb(dir, items, i + 1, n)
  }

  lemma ClimbStep(dir: Directory, items: seq<Item>, i: nat, n: nat, tail: seq<Directory>)
    requires i < n <= |items|
    ensures [Placed(dir, items[..i])] + (Climb(dir, items, i + 1, n) + tail) == Climb(dir, items, i, n) + tail
  {
    hide Placed;
  }

  lemma ClimbEnd(dir: Directory, items: seq<Item>, n: nat, tail: seq<Directory>)
    requires n <= |items|
    ensures Climb(dir, items, n, n) + tail == [Placed(dir, items[..n])] + tail
  {
    hide Placed;
  }

  lemma TraceLast(dir: Directory, items: seq<Item>, faults: seq<Fault>, n: nat)
    requires |faults| == |items| && n == FirstFault(faults) && Fresh(dir, items)
    ensures Trace(Placed(dir, items[..n]), items[n..], faults[n..], NamesOf(items[..n]))
            == [Placed(dir, items[..n])] + FaultTail(dir, items, faults)
  {
    if n < |items| {
      FaultTrace(dir, items, faults, n);
      hide *;
    } else {
      hide Placed, NamesOf, Fresh, FirstFault;
    }
  }

  lemma {:induction false} TraceFrom(dir: Directory, items: seq<Item>, faults: seq<Fault>, i: nat)
    requires |faults| == |items| && i <= FirstFault(faults) && Fresh(dir, items)
    ensures Trace(Placed(dir, items[..i]), items[i..], faults[i..], NamesOf(items[..i]))
            == Climb(dir, items, i, FirstFault(faults)) + FaultTail(dir, items, faults)
    decreases |items| - i
  {
    hide *;
    var n, tail := FirstFault(faults), FaultTail(dir, items, faults);
    if i < n {
      CleanTrace(dir, items, faults, i);
      TraceFrom(dir, items, faults, i + 1);
      ClimbStep(dir, items, i, n, tail);
    } else {
      ClimbEnd(dir, items, n, tail);
      TraceLast(dir, items, faults, n);
    }
  }

  /** Every state of a publication of new names, read off its first fault. */
  lemma TraceStates(dir: Directory, items: seq<Item>, faults: seq<Fault>)
    requires |faults| == |items| && Fresh(dir, items)
    ensures Trace(dir, items, faults, []) == Climb(dir, items, 0, FirstFault(faults)) + FaultTail(dir, items, faults)
  {
    assert items[..0] == [] && items[0..] == items && faults[0..] == faults;
    TraceFrom(dir, items, faults, 0);
    hide FaultTail, Trace, FirstFault, Fresh, Climb;
  }

  // ----- what a reader can meet -----

  /** All the names of a publication are there. */
  predicate AllIn(dir: Directory, items: seq<Item>) { forall i :: 0 <= i < |items| ==> items[i].name in dir }

  /** The link of the last file stands, whatever happens after it. */
  predicate LastLinked(faults: seq<Fault>) {
    var n := FirstFault(faults);
    n == |faults| || (n + 1 == |faults| && !faults[n].LinkFails?)
  }

  /** How many states a publication passes through. */
  function TraceLength(faults: seq<Fault>): nat {
    var n := FirstFault(faults);
    n + 1 + (if n == |faults| then 0 else if faults[n].SyncFails? then 1 else n + 1)
  }

  lemma PrefixAllIn(dir: Directory, items: seq<Item>, k: nat)
    requires Fresh(dir, items) && k <= |items|
    ensures AllIn(Placed(dir, items[..k]), items) <==> k == |items|
  {
    if k < |items| {
      NextIsNew(dir, items, k);
    } else {
      PlacedContents(dir, items);
      assert items[..k] == items;
      assert forall i :: 0 <= i < |items| ==> NamesOf(items)[i] == items[i].name;
    }
    hide Placed, Fresh;
  }

  /** With an outlived link in place and the files before it taken back in turn. */
  lemma LeftoverAllIn(dir: Directory, items: seq<Item>, n: nat, k: nat)
    requires Fresh(dir, items) && k <= n < |items|
    ensures AllIn(Put(Placed(dir, items[..k]), items[n]), items) <==> k == n && n + 1 == |items|
  {
    if k == n {
      PlacedAppend(dir, items[..n], items[n]);
      assert items[..n] + [items[n]] == items[..n + 1];
      PrefixAllIn(dir, items, n + 1);
      hide *;
    } else {
      NextIsNew(dir, items, k);
      assert NamesOf(items)[k] != NamesOf(items)[n];
      hide Placed, Fresh, NamesOf;
      assert items[k].name !in Put(Placed(dir, items[..k]), items[n]);
    }
  }

  /** What the k-th state holds: the first k files, or those the roll-back has left beside an outlived link. */
  function StateAt(dir: Directory, items: seq<Item>, faults: seq<Fault>, k: nat): Directory
    requires |faults| == |items| && k < TraceLength(faults)
  {
    var n := FirstFault(faults);
    if k <= n then Placed(dir, items[..k])
    else if faults[n].SyncFails? then Placed(dir, items[..n + 1])
    else if faults[n].LinkFails? then Placed(dir, items[..2 * n + 1 - k])
    else Put(Placed(dir, items[..2 * n + 1 - k]), items[n])
  }

  lemma TailAt(dir: Directory, items: seq<Item>, faults: seq<Fault>, j: nat)
    requires |faults| == |items|
    ensures FirstFault(faults) + 1 + |FaultTail(dir, items, faults)| == TraceLength(faults)
    ensures j < |FaultTail(dir, items, faults)| ==>
      FaultTail(dir, items, faults)[j] == StateAt(dir, items, faults, FirstFault(faults) + 1 + j)
  {
    hide Placed, FirstFault;
    var n := FirstFault(faults);
    assert 2 * n + 1 - (n + 1 + j) == n - j;
  }

  lemma JoinAt(climb: seq<Directory>, tail: seq<Directory>, k: nat)
    requires k < |climb| + |tail|
    ensures (climb + tail)[k] == if k < |climb| then climb[k] else tail[k - |climb|]
  {
  }

  lemma EarlyState(dir: Directory, items: seq<Item>, faults: seq<Fault>, k: nat)
    requires |faults| == |items| && k <= FirstFault(faults)
    ensures k < TraceLength(faults) && StateAt(dir, items, faults, k) == Placed(dir, items[..k])
  {
    hide Placed, FirstFault;
  }

  lemma TraceAt(dir: Directory, items: seq<Item>, faults: seq<Fault>, k: nat)
    requires |faults| == |items| && Fresh(dir, items)
    ensures |Trace(dir, items, faults, [])| == TraceLength(faults)
    ensures k < TraceLength(faults) ==> Trace(dir, items, faults, [])[k] == StateAt(dir, items, faults, k)
  {
    hide *;
    var n := FirstFault(faults);
    var climb, tail := Climb(dir, items, 0, n), FaultTail(dir, items, faults);
    TraceStates(dir, items, faults);
    TailAt(dir, items, faults, if k <= n then 0 else k - n - 1);
    if k <= n {
      EarlyState(dir, items, faults, k);
    }
    if k < TraceLength(faults) {
      JoinAt(climb, tail, k);
    }
  }

  lemma StateAllIn(dir: Directory, items: seq<Item>, faults: seq<Fault>, k: nat)
    requires |faults| == |items| && Fresh(dir, items) && k < TraceLength(faults)
    ensures AllIn(StateAt(dir, items, faults, k), items) <==> k == |items| && LastLinked(faults)
  {
    var n := FirstFault(faults);
    hide Placed, Fresh, FirstFault, AllIn, Put;
    if k <= n {
      PrefixAllIn(dir, items, k);
    } else if faults[n].SyncFails? {
      PrefixAllIn(dir, items, n + 1);
    } else if faults[n].LinkFails? {
      PrefixAllIn(dir, items, 2 * n + 1 - k);
    } else {
      LeftoverAllIn(dir, items, n, 2 * n + 1 - k);
    }
  }

  /**
   * A publication shows all its names in one state only: the one the link of its last file makes, if that
   * link stands. No state before it and no state of a roll-back shows them.
   */
  lemma TogetherAtLastLink(dir: Directory, items: seq<Item>, faults: seq<Fault>)
    requires |faults| == |items| && Fresh(dir, items)
    ensures var trace := Trace(dir, items, faults, []);
      && |trace| == TraceLength(faults)
      && forall k :: 0 <= k < |trace| ==> (AllIn(trace[k], items) <==> k == |items| && LastLinked(faults))
  {
    hide *;
    TraceAt(dir, items, faults, 0);
    var trace := Trace(dir, items, faults, []);
    forall k | 0 <= k < |trace|
      ensures AllIn(trace[k], items) <==> k == |items| && LastLinked(faults)
    {
      TraceAt(dir, items, faults, k);
      StateAllIn(dir, items, faults, k);
    }
  }

  /** That state is the one an undisturbed publication ends in. */
  lemma StateAtLastLink(dir: Directory, items: seq<Item>, faults: seq<Fault>)
    requires |faults| == |items| && Fresh(dir, items) && LastLinked(faults)
    ensures var trace := Trace(dir, items, faults, []);
      |trace| > |items| && trace[|items|] == Placed(dir, items)
  {
    TraceAt(dir, items, faults, |items|);
    LastState(dir, items, faults);
    hide *;
  }

  lemma LastState(dir: Directory, items: seq<Item>, faults: seq<Fault>)
    requires |faults| == |items| && LastLinked(faults)
    ensures |items| < TraceLength(faults) && StateAt(dir, items, faults, |items|) == Placed(dir, items)
  {
    var n := FirstFault(faults);
    assert items[..|items|] == items;
    if n < |items| {
      assert items[..n] + [items[n]] == items;
      PlacedAppend(dir, items[..n], items[n]);
    }
    hide Placed, FirstFault;
  }

  /** Nothing that was there is replaced, and what is new is a file of the publication. */
  ghost predicate Between(dir: Directory, state: Directory, items: seq<Item>) {
    && (forall n :: n in dir ==> n in state && state[n] == dir[n])
    && (forall n :: n in state && n !in dir ==>
          exists i :: 0 <= i < |items| && items[i].name == n && state[n] == Regular(items[i].data))
  }

  lemma PlacedBetween(dir: Directory, items: seq<Item>, k: nat)
    requires Fresh(dir, items) && k <= |items|
    ensures Between(dir, Placed(dir, items[..k]), items)
  {
    FreshPrefix(dir, items, k);
    PlacedContents(dir, items[..k]);
    hide Placed, Fresh;
    var state := Placed(dir, items[..k]);
    forall n | n in state && n !in dir
      ensures exists i :: 0 <= i < |items| && items[i].name == n && state[n] == Regular(items[i].data)
    {
      var i := IndexOf(items[..k], n);
      hide NamesOf;
      assert items[..k][i] == items[i];
    }
    hide NamesOf;
  }

  lemma IndexOf(items: seq<Item>, n: string) returns (i: nat)
    requires n in ToSet(NamesOf(items))
    ensures i < |items| && items[i].name == n
  {
    i :| 0 <= i < |items| && NamesOf(items)[i] == n;
  }

  lemma LeftoverBetween(dir: Directory, items: seq<Item>, n: nat, k: nat)
    requires Fresh(dir, items) && k <= n < |items|
    ensures Between(dir, Put(Placed(dir, items[..k]), items[n]), items)
  {
    PlacedBetween(dir, items, k);
    assert items[n].name !in dir;
    hide Placed, Fresh;
  }

  lemma StateBetween(dir: Directory, items: seq<Item>, faults: seq<Fault>, k: nat)
    requires |faults| == |items| && Fresh(dir, items) && k < TraceLength(faults)
    ensures Between(dir, StateAt(dir, items, faults, k), items)
  {
    var n := FirstFault(faults);
    hide Placed, Fresh, FirstFault, Between, Put;
    if k <= n {
      PlacedBetween(dir, items, k);
    } else if faults[n].SyncFails? {
      PlacedBetween(dir, items, n + 1);
    } else if faults[n].LinkFails? {
      PlacedBetween(dir, items, 2 * n + 1 - k);
    } else {
      LeftoverBetween(dir, items, n, 2 * n + 1 - k);
    }
  }

  /** No state of a publication replaces a file or shows a foreign one. */
  lemma TraceBetween(dir: Directory, items: seq<Item>, faults: seq<Fault>, k: nat)
    requires |faults| == |items| && Fresh(dir, items) && k < |Trace(dir, items, faults, [])|
    ensures Between(dir, Trace(dir, items, faults, [])[k], items)
  {
    hide *;
    TraceAt(dir, items, faults, k);
    StateBetween(dir, items, faults, k);
  }

  /** A directory that publication changes in place; history lists every state it has been in. */
  class Target {
    var files: Directory
    ghost var history: seq<Directory>

    constructor (dir: Directory)
      ensures files == dir && history == [dir]
    {
      files, history := dir, [dir];
    }

    method AtomicPublish(item: Item, fault: Fault) returns (r: Result<()>)
      modifies this
      ensures (files, r) == PublishOne(old(files), item, fault)
      ensures history == old(history) + [files]
    {
      if item.name in files || fault.LinkFails? {
        history := history + [files];
        return Err(Refused);
      }
      files := files[item.name := Regular(item.data)];
      history := history + [files];
      match fault
      case UnlinkFails => return Err(Refused);
      case SyncFails => return Err(Escaped);
      case _ => return Ok(());
    }

    method Unlink(name: string)
      modifies this
      ensures files == old(files) - {name} && history == old(history) + [files]
    {
      files := files - {name};
      history := history + [files];
    }

    method RollBack(published: seq<string>)
      modifies this
      ensures files == Rollback(old(files), published)
      ensures history == old(history) + RollbackTrace(old(files), published)
    {
      var i := |published|;
      assert published[..i] == published;
      while 0 < i
        invariant 0 <= i <= |published|
        invariant files == old(files) - ToSet(published[i..])
        invariant history + RollbackTrace(files, published[..i])
                  == old(history) + RollbackTrace(old(files), published)
      {
        i := i - 1;
        assert published[i..] == [published[i]] + published[i + 1..];
        assert ToSet(published[i..]) == {published[i]} + ToSet(published[i + 1..]);
        assert published[..i + 1][..i] == published[..i];
        Unlink(published[i]);
      }
      assert published[0..] == published;
    }

    /** The publication loop; a reader meets the states of the trace, and no others. */
    method PublishAll(items: seq<Item>, faults: seq<Fault>) returns (r: Result<()>)
      requires |faults| == |items|
      modifies this
      ensures (files, r) == PublishFrom(old(files), items, faults, [])
      ensures history == old(history) + Trace(old(files), items, faults, [])[1..]
    {
      hide Rollback, RollbackTrace, PublishFrom, Trace, PublishOne;
      var published: seq<string> := [];
      var i := 0;
      assert items[0..] == items && faults[0..] == faults;
      while i < |items|
        invariant 0 <= i <= |items|
        invariant PublishFrom(files, items[i..], faults[i..], published)
                  == PublishFrom(old(files), items, faults, [])
        invariant history + Trace(files, items[i..], faults[i..], published)[1..]
                  == old(history) + Trace(old(files), items, faults, [])[1..]
      {
        Turn(files, items[i..], faults[i..], published);
        var step := AtomicPublish(items[i], faults[i]);
        if step.Err? {
          if step.kind.Refused? {
            RollBack(published);
          }
          return step;
        }
        assert items[i..][1..] == items[i + 1..] && faults[i..][1..] == faults[i + 1..];
        published := published + [items[i].name];
        i := i + 1;
      }
      Turn(files, items[i..], faults[i..], published);
      r := Ok(());
    }
  }

  /** One turn of the publication loop, as a reader and as the caller see it. */
  lemma Turn(dir: Directory, items: seq<Item>, faults: seq<Fault>, published: seq<string>)
    requires |faults| == |items|
    ensures items == [] ==>
      PublishFrom(dir, items, faults, published) == (dir, Ok(())) && Trace(dir, items, faults, published)[1..] == []
    ensures items != [] ==>
      var (after, r) := PublishOne(dir, items[0], faults[0]);
      var names := published + [items[0].name];
      && PublishFrom(dir, items, faults, published)
         == (match r
             case Ok(_) => PublishFrom(after, items[1..], faults[1..], names)
             case Err(Refused) => (Rollback(after, published), r)
             case Err(Escaped) => (after, r))
      && Trace(dir, items, faults, published)[1..]
         == [after] + (match r
                       case Ok(_) => Trace(after, items[1..], faults[1..], names)[1..]
                       case Err(Refused) => RollbackTrace(after, published)
                       case Err(Escaped) => [])
  {
    hide PublishOne, Rollback, RollbackTrace;
    if items != [] {
      var (after, r) := PublishOne(dir, items[0], faults[0]);
      if r.Ok? {
        var later := Trace(after, items[1..], faults[1..], published + [items[0].name]);
        assert later == [after] + later[1..];
      }
    }
  }
}
