/** Seeding an installation that has neither pack yet. */
module FreshInstallation {
  import opened Common
  import opened Definitions
  import opened PackSeeding
  import opened PackConvergence
  import opened PackReruns

  /** Every control a blueprint names exists once. */
  predicate ControlsExist(controls: seq<Row<string, string>>, items: seq<Item>) {
    forall i :: 0 <= i < |items| ==> ControlOf(controls, items[i].control).Some?
  }

  /** Shared activities have one control in both blueprints. */
  predicate SharedAgree(inputs: Inputs) {
    forall i :: 0 <= i < |inputs.amendment.items| ==>
      var item := inputs.amendment.items[i];
      item.key == item.source ==> item.control == ItemOf(inputs.initial.items, item.source).control
  }

  // ----- the structure of an unfilled pack -----

  /** None of the blueprint's areas and no line is in the pack. */
  ghost predicate Blank(st: Structure, p: nat, bp: Blueprint) {
    && (forall c: string :: c in CodesOf(bp.phases) ==> Found(st.areas, AreaKey(p, c)) == [])
    && (forall c: nat :: Found(st.lines, LineKey(p, c)) == [])
  }

  /** The pack is missing, or a draft under its own name that none of the blueprint has been put into. */
  ghost predicate Unfilled(st: Structure, bp: Blueprint, v: Version)
    requires WellFormed(st)
  {
    var p := Position(st.packs, v);
    p.Some? ==> Present(st.packs, v, bp.name) && st.states[p.value].Draft? && Blank(st, p.value, bp)
  }

  lemma NewPackIsBlank(st: Structure, p: nat, bp: Blueprint)
    requires WellFormed(st) && |st.packs| <= p
    ensures Blank(st, p, bp)
  {
    forall c: string
      ensures Found(st.areas, AreaKey(p, c)) == []
    {
      PositionOfFound(st.areas, AreaKey(p, c));
    }
    forall c: nat
      ensures Found(st.lines, LineKey(p, c)) == []
    {
      PositionOfFound(st.lines, LineKey(p, c));
    }
    hide Found, Position;
  }

  lemma AreasCreated(st: Structure, p: nat, bp: Blueprint, v: Version)
    requires Blank(st, p, bp) && ValidPack(bp, v)
    ensures EnsureAll(st.areas, AreaWants(p, bp.phases), true).Some?
  {
    var wants := AreaWants(p, bp.phases);
    forall w | w in wants
      ensures Found(st.areas, w.0) == []
    {
      var i :| 0 <= i < |wants| && wants[i] == w;
      assert bp.phases[i].code == CodesOf(bp.phases)[i];
    }
    PhaseCodesDistinct();
    forall i, j | 0 <= i < j < |wants|
      ensures wants[i].0 != wants[j].0
    {
      assert CodesOf(bp.phases)[i] != CodesOf(bp.phases)[j];
    }
    hide Found, EnsureAll, PhaseCode;
    AllCreated(st.areas, wants);
  }

  /** Two items of a valid blueprint have different controls. */
  lemma ControlsDiffer(controls: seq<Row<string, string>>, items: seq<Item>, i: nat, j: nat)
    requires NoDuplicates(ControlCodes(items)) && i < j < |items| && ControlsExist(controls, items)
    ensures ControlOf(controls, items[i].control).value != ControlOf(controls, items[j].control).value
  {
    assert ControlCodes(items)[i] != ControlCodes(items)[j];
    hide ControlOf;
  }

  lemma LinesCreated(st: Structure, areas: seq<Row<AreaKey, string>>, p: nat, bp: Blueprint, v: Version)
    requires Blank(st, p, bp) && ValidPack(bp, v) && ControlsExist(st.controls, bp.items)
    requires forall w :: w in AreaWants(p, bp.phases) ==> Present(areas, w.0, w.1)
    ensures LineWants(st.controls, areas, p, bp.items).Some?
    ensures EnsureAll(st.lines, LineWants(st.controls, areas, p, bp.items).value, true).Some?
  {
    forall i | 0 <= i < |bp.items|
      ensures Position(areas, AreaKey(p, bp.items[i].phase)).Some?
    {
      PhaseHasArea(areas, p, bp, bp.items[i].phase);
    }
    LineWantsHold(st.controls, areas, p, bp.items);
    var wants := LineWants(st.controls, areas, p, bp.items).value;
    hide LineWants, Found, Position, ControlOf, AreaWants, EnsureAll, CodesOf, PhaseCodes;
    forall w | w in wants
      ensures Found(st.lines, w.0) == []
    {
      var i :| 0 <= i < |wants| && wants[i] == w;
      assert w.0 == LineKey(p, ControlOf(st.controls, bp.items[i].control).value);
    }
    forall i, j | 0 <= i < j < |wants|
      ensures wants[i].0 != wants[j].0
    {
      ControlsDiffer(st.controls, bp.items, i, j);
    }
    AllCreated(st.lines, wants);
  }

  lemma PhaseHasArea(areas: seq<Row<AreaKey, string>>, p: nat, bp: Blueprint, phase: string)
    requires phase in CodesOf(bp.phases)
    requires forall w :: w in AreaWants(p, bp.phases) ==> Present(areas, w.0, w.1)
    ensures Position(areas, AreaKey(p, phase)).Some?
  {
    var i :| 0 <= i < |bp.phases| && bp.phases[i].code == phase;
    assert AreaWants(p, bp.phases)[i] in AreaWants(p, bp.phases);
    PositionOfFound(areas, AreaKey(p, phase));
  }

  /** Ensuring an unfilled pack leaves it a draft, and as blank as it was. */
  lemma Opened(st: Structure, bp: Blueprint, v: Version)
    requires WellFormed(st) && Unfilled(st, bp, v)
    ensures EnsurePack(st, bp, v).Some?
    ensures var (t, p) := EnsurePack(st, bp, v).value;
      && WellFormed(t) && p < |t.states| && t.states[p].Draft? && Blank(t, p, bp) && t.controls == st.controls
  {
    hide WellFormed, Position, Found, Blank;
    PositionOfFound(st.packs, v);
    PositionAppended(st.packs, Row(v, bp.name), v);
    if Position(st.packs, v).None? {
      NewPackIsBlank(st, |st.packs|, bp);
    }
    EnsurePackHolds(st, bp, v);
    var (t, p) := EnsurePack(st, bp, v).value;
    SameBlank(st, t, p, bp);
    SameSizes(st);
  }

  lemma SameSizes(st: Structure)
    requires WellFormed(st)
    ensures |st.states| == |st.packs|
  {
  }

  lemma SameBlank(st: Structure, t: Structure, p: nat, bp: Blueprint)
    requires Blank(st, p, bp) && t.areas == st.areas && t.lines == st.lines
    ensures Blank(t, p, bp)
  {
  }

  lemma NewContents(st: Structure, p: nat, bp: Blueprint)
    requires WellFormed(st) && p < |st.states| && st.states[p].Draft?
    requires EnsureAll(st.areas, AreaWants(p, bp.phases), true).Some?
    requires var areas := EnsureAll(st.areas, AreaWants(p, bp.phases), true).value;
      LineWants(st.controls, areas, p, bp.items).Some?
      && EnsureAll(st.lines, LineWants(st.controls, areas, p, bp.items).value, true).Some?
    ensures EnsureContents(st, p, bp).Some?
  {
    hide WellFormed, EnsureAll, LineWants, AreaWants, Matches;
  }

  /** An unfilled pack is filled, given its controls. */
  lemma FilledStructure(st: Structure, bp: Blueprint, v: Version)
    requires WellFormed(st) && Unfilled(st, bp, v) && ValidPack(bp, v) && ControlsExist(st.controls, bp.items)
    ensures EnsureStructure(st, bp, v).Some?
  {
    hide EnsureAll, LineWants, AreaWants, Found, Position, ValidPack, ControlsExist, WellFormed, EnsurePack,
         EnsureContents, Present, Blank, Unfilled;
    Opened(st, bp, v);
    var (t, p) := EnsurePack(st, bp, v).value;
    AreasCreated(t, p, bp, v);
    AllPresent(t.areas, AreaWants(p, bp.phases), true);
    LinesCreated(t, EnsureAll(t.areas, AreaWants(p, bp.phases), true).value, p, bp, v);
    NewContents(t, p, bp);
  }

  lemma OtherKeyFound<K(!new), V>(rows: seq<Row<K, V>>, wants: seq<(K, V)>, create: bool, k: K)
    requires EnsureAll(rows, wants, create).Some? && forall i :: 0 <= i < |wants| ==> wants[i].0 != k
    ensures Found(EnsureAll(rows, wants, create).value, k) == Found(rows, k)
  {
    AllPresent(rows, wants, create);
    hide EnsureAll, Found, Position, Present;
    assert forall w :: w in wants ==> w.0 != k;
  }

  /** What ensuring one pack leaves of the contents of another. */
  lemma OthersBlank(st: Structure, p: nat, bp: Blueprint, q: nat, other: Blueprint)
    requires WellFormed(st) && p < |st.states| && EnsureContents(st, p, bp).Some? && q != p && Blank(st, q, other)
    ensures Blank(EnsureContents(st, p, bp).value, q, other)
  {
    hide EnsureAll, LineWants, Matches, Found, Position, Present;
    var draft := st.states[p].Draft?;
    var areas := EnsureAll(st.areas, AreaWants(p, bp.phases), draft).value;
    var wants := LineWants(st.controls, areas, p, bp.items).value;
    LineWantsHold(st.controls, areas, p, bp.items);
    forall c: string
      ensures Found(areas, AreaKey(q, c)) == Found(st.areas, AreaKey(q, c))
    {
      OtherKeyFound(st.areas, AreaWants(p, bp.phases), draft, AreaKey(q, c));
    }
    forall c: nat
      ensures Found(EnsureAll(st.lines, wants, draft).value, LineKey(q, c)) == Found(st.lines, LineKey(q, c))
    {
      OtherKeyFound(st.lines, wants, draft, LineKey(q, c));
    }
  }

  lemma OtherPosition(st: Structure, bp: Blueprint, v: Version, w: Version)
    requires WellFormed(st) && EnsurePack(st, bp, v).Some? && v != w
    ensures var t := EnsurePack(st, bp, v).value.0;
      Position(t.packs, w) == Position(st.packs, w) && Found(t.packs, w) == Found(st.packs, w)
  {
    PositionAppended(st.packs, Row(v, bp.name), w);
    FoundAppended(st.packs, Row(v, bp.name), w);
    hide Found, Position;
  }

  /** Ensuring one pack leaves the other unfilled. */
  lemma StaysUnfilled(st: Structure, bp: Blueprint, v: Version, other: Blueprint, w: Version)
    requires WellFormed(st) && EnsureStructure(st, bp, v).Some? && v != w && Unfilled(st, other, w)
    ensures WellFormed(EnsureStructure(st, bp, v).value.0) && Unfilled(EnsureStructure(st, bp, v).value.0, other, w)
  {
    hide EnsurePack, EnsureContents, ValidPack, Found, Position, Blank, WellFormed;
    StructureWellFormed(st, bp, v);
    StructureSettles(st, bp, v);
    EnsurePackHolds(st, bp, v);
    OtherPosition(st, bp, v, w);
    var (packed, p) := EnsurePack(st, bp, v).value;
    var t := EnsureContents(packed, p, bp).value;
    ContentsPacks(packed, p, bp);
    SameSizes(st);
    hide Settled, KeptStructure;
    var at := Position(st.packs, w);
    if at.Some? {
      assert packed.packs[at.value].key == w && packed.packs[p].key == v;
      SameBlank(st, packed, at.value, other);
      OthersBlank(packed, p, bp, at.value, other);
    }
  }

  // ----- the activities -----

  /** In a settled pack every item of the blueprint is aligned. */
  lemma ItemAligned(st: Structure, p: nat, bp: Blueprint, v: Version, i: nat, task: Task)
    requires Settled(st, p, bp, v) && i < |bp.items|
    requires task.pack == p && task.control == bp.items[i].control && task.phase == bp.items[i].phase
    ensures Aligned(st, task)
  {
    var wants := LineWants(st.controls, st.areas, p, bp.items).value;
    LineWantsHold(st.controls, st.areas, p, bp.items);
    assert wants[i] in wants;
    PositionOfFound(st.lines, wants[i].0);
    hide LineWants, AreaWants, Found, Position, ControlOf;
  }

  /** The activity is still missing, or there as the task defines it. */
  predicate Open(s: Store, task: Task)
    requires Aligned(s.structure, task)
  {
    Found(s.activities, task.key) == [] || Present(s.activities, task.key, ValueOf(s.structure, task))
  }

  lemma {:induction false} TasksSucceed(s: Store, tasks: seq<Task>)
    requires |s.scopes| == |s.activities| && DistinctKeys(tasks)
    requires forall x :: x in tasks ==> OwnScopes(x) && Aligned(s.structure, x) && Open(s, x)
    ensures RunTasks(s, tasks).Some?
    decreases |tasks|
  {
    hide RunTask, OwnScopes, Aligned, Found;
    if tasks != [] {
      var fewer, last := tasks[..|tasks| - 1], tasks[|tasks| - 1];
      TasksSucceed(s, fewer);
      TasksEffect(s, fewer);
      var m := RunTasks(s, fewer).value;
      assert forall x :: x in fewer ==> x.key != last.key;
      OthersFound(s, fewer, last.key);
      assert ValueOf(m.structure, last) == ValueOf(s.structure, last);
      OpenRuns(m, last);
    }
  }

  /** Tasks leave other keys as they were found. */
  lemma {:induction false} OthersFound(s: Store, tasks: seq<Task>, k: Key)
    requires |s.scopes| == |s.activities| && RunTasks(s, tasks).Some? && forall x :: x in tasks ==> x.key != k
    ensures Found(RunTasks(s, tasks).value.activities, k) == Found(s.activities, k)
    decreases |tasks|
  {
    hide Aligned, ValueOf, SetScopes;
    if tasks != [] {
      var fewer, last := tasks[..|tasks| - 1], tasks[|tasks| - 1];
      OthersFound(s, fewer, k);
      var m := RunTasks(s, fewer).value;
      OtherFound(m, last, k);
      hide RunTask;
    }
  }

  lemma OtherFound(s: Store, task: Task, k: Key)
    requires |s.scopes| == |s.activities| && RunTask(s, task).Some? && task.key != k
    ensures Found(RunTask(s, task).value.activities, k) == Found(s.activities, k)
  {
    EnsureKeeps(s.activities, task.key, ValueOf(s.structure, task), true, k);
    hide Found, Position, SetScopes, Aligned, ValueOf, Ensure;
  }

  lemma OpenRuns(s: Store, task: Task)
    requires |s.scopes| == |s.activities| && Aligned(s.structure, task) && Open(s, task)
    ensures RunTask(s, task).Some?
  {
    hide Found, SetScopes, Aligned, ValueOf;
  }

  lemma InitialAligned(st: Structure, inputs: Inputs, p1: nat)
    requires Valid(inputs) && Settled(st, p1, inputs.initial, V10)
    ensures forall x :: x in InitialTasks(inputs, p1) ==> Aligned(st, x)
  {
    var tasks, items := InitialTasks(inputs, p1), inputs.initial.items;
    hide Settled, Aligned, ValidPack, ValidAmendment, NoDuplicates;
    forall x | x in tasks
      ensures Aligned(st, x)
    {
      var n :| 0 <= n < POSITIONS && tasks[n] == x;
      assert Base(n + 1) in inputs.authored;
      var item := ItemOf(items, Base(n + 1));
      var i :| 0 <= i < |items| && items[i] == item;
      ItemAligned(st, p1, inputs.initial, V10, i, x);
    }
  }

  lemma AmendmentAligned(st: Structure, inputs: Inputs, p1: nat, p2: nat)
    requires Settled(st, p2, inputs.amendment, V11)
    ensures forall x :: x in AmendmentTasks(inputs, p1, p2) ==> Aligned(st, x)
  {
    var tasks := AmendmentTasks(inputs, p1, p2);
    hide Settled, Aligned, ContentOf;
    forall x | x in tasks
      ensures Aligned(st, x)
    {
      var i :| 0 <= i < |tasks| && tasks[i] == x;
      ItemAligned(st, p2, inputs.amendment, V11, i, x);
    }
  }

  /** After the first pack, an amendment task finds its activity missing, or shared and as it wants it. */
  lemma AmendmentOpen(s: Store, a: Store, b: Store, inputs: Inputs, p1: nat, p2: nat, i: nat)
    requires Valid(inputs) && SharedAgree(inputs) && i < POSITIONS
    requires |s.scopes| == |s.activities| && RunTasks(s, InitialTasks(inputs, p1)) == Some(a)
    requires NoneSeeded(s.activities)
    requires forall x :: x in InitialTasks(inputs, p1) ==> Done(a, x)
    requires b.activities == a.activities && KeptStructure(a.structure, b.structure)
    requires i < |AmendmentTasks(inputs, p1, p2)| && Aligned(b.structure, AmendmentTasks(inputs, p1, p2)[i])
    ensures Open(b, AmendmentTasks(inputs, p1, p2)[i])
  {
    assert ValidAmendment(inputs.amendment, inputs.initial);
    var item, task := inputs.amendment.items[i], AmendmentTasks(inputs, p1, p2)[i];
    assert item.key == AmendmentKey(i + 1) && item.source == Base(i + 1);
    assert task == AmendmentTask(inputs, p1, p2, item);
    if IsRevised(i + 1) {
      NotInitial(inputs, p1, Revised(i + 1));
      OthersFound(s, InitialTasks(inputs, p1), Revised(i + 1));
      assert Target(Revised(i + 1), 0, 1).Some?;
    } else {
      var first := InitialTasks(inputs, p1)[i];
      assert first == InitialTask(inputs, p1, i + 1) && first in InitialTasks(inputs, p1);
      assert first.key == task.key && first.control == task.control && first.content == task.content;
      AlignedKept(a.structure, b.structure, first);
      assert ValueOf(b.structure, task) == ValueOf(a.structure, first);
    }
    hide Valid, Found, KeptStructure, InitialTasks, AmendmentTasks, ValidAmendment;
  }

  lemma NotInitial(inputs: Inputs, p1: nat, k: Key)
    requires k.Revised?
    ensures forall x :: x in InitialTasks(inputs, p1) ==> x.key != k
  {
    InitialOwn(inputs, p1);
    hide OwnScopes, DistinctKeys, InitialTasks;
  }

  /** Neither pack is filled, and none of the seeded activities exists yet. */
  ghost predicate Startable(s: Store, inputs: Inputs)
    requires StoreWellFormed(s)
  {
    && Unfilled(s.structure, inputs.initial, V10) && Unfilled(s.structure, inputs.amendment, V11)
    && NoneSeeded(s.activities)
  }

  ghost predicate NoneSeeded(activities: seq<Row<Key, ActivityValue>>) {
    forall k: Key :: Target(k, 0, 1).Some? ==> Found(activities, k) == []
  }

  lemma FirstStructure(st: Structure, inputs: Inputs)
    requires WellFormed(st) && Unfilled(st, inputs.initial, V10) && Valid(inputs)
    requires ControlsExist(st.controls, inputs.initial.items)
    ensures EnsureStructure(st, inputs.initial, V10).Some?
    ensures var (first, p1) := EnsureStructure(st, inputs.initial, V10).value;
      WellFormed(first) && forall x :: x in InitialTasks(inputs, p1) ==> Aligned(first, x)
  {
    assert ValidPack(inputs.initial, V10);
    hide *;
    FilledStructure(st, inputs.initial, V10);
    StructureSettles(st, inputs.initial, V10);
    StructureWellFormed(st, inputs.initial, V10);
    var (first, p1) := EnsureStructure(st, inputs.initial, V10).value;
    InitialAligned(first, inputs, p1);
  }

  lemma FirstSucceeds(s: Store, inputs: Inputs)
    requires StoreWellFormed(s) && Valid(inputs) && Startable(s, inputs)
    requires ControlsExist(s.structure.controls, inputs.initial.items)
    ensures SeedFirst(s, inputs).Some?
  {
    hide EnsureStructure, Valid, WellFormed, ControlsExist, Aligned, InitialTasks, RunTasks, NoneSeeded, Unfilled;
    FirstStructure(s.structure, inputs);
    var (st, p1) := EnsureStructure(s.structure, inputs.initial, V10).value;
    InitialSucceeds(s.(structure := st), inputs, p1);
  }

  lemma InitialSucceeds(s: Store, inputs: Inputs, p1: nat)
    requires |s.scopes| == |s.activities| && NoneSeeded(s.activities)
    requires forall x :: x in InitialTasks(inputs, p1) ==> Aligned(s.structure, x)
    ensures RunTasks(s, InitialTasks(inputs, p1)).Some?
  {
    InitialOwn(inputs, p1);
    hide Aligned, OwnScopes, DistinctKeys, InitialTasks, RunTasks, Found;
    forall x | x in InitialTasks(inputs, p1)
      ensures Open(s, x)
    {
      assert Target(x.key, 0, 1).Some?;
    }
    TasksSucceed(s, InitialTasks(inputs, p1));
  }

  lemma ContentsPacks(st: Structure, p: nat, bp: Blueprint)
    requires WellFormed(st) && p < |st.states| && EnsureContents(st, p, bp).Some?
    ensures EnsureContents(st, p, bp).value.packs == st.packs && EnsureContents(st, p, bp).value.controls == st.controls
  {
    hide EnsureAll, LineWants, Matches, AreaWants;
  }

  /**
   * A store with all the controls, in which neither pack is filled, and blueprints that agree on shared
   * activities: the first seed succeeds; every later one does, and changes nothing, exactly when the draft
   * packs held nothing that their blueprints lack.
   */
  lemma UnfilledSeedSucceeds(s: Store, inputs: Inputs) returns (p1: nat, p2: nat)
    requires StoreWellFormed(s) && Valid(inputs) && Startable(s, inputs) && SharedAgree(inputs)
    requires ControlsExist(s.structure.controls, inputs.initial.items)
    requires ControlsExist(s.structure.controls, inputs.amendment.items)
    ensures Seed(s, inputs).Some?
    ensures var t := Seed(s, inputs).value;
      && Position(t.structure.packs, V10) == Some(p1) && Position(t.structure.packs, V11) == Some(p2)
      && Seed(t, inputs) == if NoStrays(s.structure, p1, inputs.initial) && NoStrays(s.structure, p2, inputs.amendment)
                            then Some(t) else None
  {
    FirstSucceeds(s, inputs);
    SecondSucceeds(s, inputs);
    p1, p2 := RerunExactly(s, inputs);
  }

  /** Neither pack and none of the seeded activities exist yet. */
  ghost predicate Fresh(s: Store) { s.structure.packs == [] && NoneSeeded(s.activities) }

  /** A fresh installation is seeded without an error - and again, as often as one likes, without a change. */
  lemma FreshSeedSucceeds(s: Store, inputs: Inputs)
    requires StoreWellFormed(s) && Valid(inputs) && Fresh(s) && SharedAgree(inputs)
    requires ControlsExist(s.structure.controls, inputs.initial.items)
    requires ControlsExist(s.structure.controls, inputs.amendment.items)
    ensures Seed(s, inputs).Some?
    ensures Seed(Seed(s, inputs).value, inputs) == Seed(s, inputs)
  {
    assert Startable(s, inputs) by {
      hide NoneSeeded, Blank, Present;
    }
    hide Startable;
    var p1, p2 := UnfilledSeedSucceeds(s, inputs);
    hide Seed, Valid, SharedAgree, ControlsExist, NoStrays, NoneSeeded, WellFormed;
    NewPackHasNoStrays(s.structure, p1, inputs.initial);
    NewPackHasNoStrays(s.structure, p2, inputs.amendment);
  }

  /** The amendment pack is filled beside the first one. */
  lemma SecondStructure(st: Structure, first: Structure, inputs: Inputs)
    requires WellFormed(st) && Unfilled(st, inputs.amendment, V11)
    requires ValidPack(inputs.amendment, V11) && ControlsExist(st.controls, inputs.amendment.items)
    requires EnsureStructure(st, inputs.initial, V10).Some? && EnsureStructure(st, inputs.initial, V10).value.0 == first
    ensures WellFormed(first) && EnsureStructure(first, inputs.amendment, V11).Some?
    ensures var (second, p2) := EnsureStructure(first, inputs.amendment, V11).value;
      WellFormed(second) && Settled(second, p2, inputs.amendment, V11) && KeptStructure(first, second)
  {
    hide EnsureStructure, ValidPack, ControlsExist, WellFormed, Settled, KeptRows, Position, Found, Unfilled;
    StructureSettles(st, inputs.initial, V10);
    StaysUnfilled(st, inputs.initial, V10, inputs.amendment, V11);
    FilledStructure(first, inputs.amendment, V11);
    StructureSettles(first, inputs.amendment, V11);
    StructureWellFormed(first, inputs.amendment, V11);
  }

  lemma AmendmentSucceeds(s: Store, a: Store, second: Structure, inputs: Inputs, p1: nat, p2: nat)
    requires |s.scopes| == |s.activities| && Valid(inputs) && SharedAgree(inputs) && NoneSeeded(s.activities)
    requires RunTasks(s, InitialTasks(inputs, p1)) == Some(a)
    requires Settled(second, p2, inputs.amendment, V11) && KeptStructure(a.structure, second)
    ensures RunTasks(a.(structure := second), AmendmentTasks(inputs, p1, p2)).Some?
  {
    var from := a.(structure := second);
    AmendmentAligned(second, inputs, p1, p2);
    AmendmentKeys(inputs, p1, p2);
    InitialDone(s, a, inputs, p1);
    hide *;
    AllOpen(s, a, from, inputs, p1, p2);
    TasksSucceed(from, AmendmentTasks(inputs, p1, p2));
  }

  lemma AmendmentKeys(inputs: Inputs, p1: nat, p2: nat)
    requires Valid(inputs)
    ensures |AmendmentTasks(inputs, p1, p2)| == POSITIONS && DistinctKeys(AmendmentTasks(inputs, p1, p2))
    ensures forall x :: x in AmendmentTasks(inputs, p1, p2) ==> OwnScopes(x)
  {
    assert ValidAmendment(inputs.amendment, inputs.initial);
    hide Valid, AmendmentTasks, ValidAmendment, OwnScopes, DistinctKeys, FinalScope;
    AmendmentOwn(inputs, p1, p2);
  }

  lemma InitialDone(s: Store, a: Store, inputs: Inputs, p1: nat)
    requires |s.scopes| == |s.activities| && RunTasks(s, InitialTasks(inputs, p1)) == Some(a)
    ensures forall x :: x in InitialTasks(inputs, p1) ==> Done(a, x)
  {
    InitialOwn(inputs, p1);
    hide InitialTasks, OwnScopes, DistinctKeys, Done, KeptRows, Rescoped, RunTasks;
    TasksEffect(s, InitialTasks(inputs, p1));
  }

  lemma AllOpen(s: Store, a: Store, from: Store, inputs: Inputs, p1: nat, p2: nat)
    requires |s.scopes| == |s.activities| && Valid(inputs) && SharedAgree(inputs) && NoneSeeded(s.activities)
    requires RunTasks(s, InitialTasks(inputs, p1)) == Some(a)
    requires forall x :: x in InitialTasks(inputs, p1) ==> Done(a, x)
    requires from.activities == a.activities && KeptStructure(a.structure, from.structure)
    requires |AmendmentTasks(inputs, p1, p2)| == POSITIONS
    requires forall x :: x in AmendmentTasks(inputs, p1, p2) ==> Aligned(from.structure, x)
    ensures forall x :: x in AmendmentTasks(inputs, p1, p2) ==> Open(from, x)
  {
    hide *;
    var tasks := AmendmentTasks(inputs, p1, p2);
    forall x | x in tasks
      ensures Open(from, x)
    {
      var i :| 0 <= i < |tasks| && tasks[i] == x;
      AmendmentOpen(s, a, from, inputs, p1, p2, i);
    }
  }

  lemma SecondSucceeds(s: Store, inputs: Inputs)
    requires StoreWellFormed(s) && Valid(inputs) && Startable(s, inputs) && SharedAgree(inputs)
    requires ControlsExist(s.structure.controls, inputs.amendment.items)
    requires SeedFirst(s, inputs).Some?
    ensures Seed(s, inputs).Some?
  {
    assert ValidPack(inputs.amendment, V11);
    hide EnsureStructure, Valid, WellFormed, Settled, ValidPack, ControlsExist, KeptStructure, InitialTasks,
         AmendmentTasks, RunTasks, Found, SharedAgree, Unfilled, NoneSeeded, SetScopes, RevisedScopes, SeedFirst;
    var (a, p1) := SeedFirst(s, inputs).value;
    FirstRun(s, inputs);
    SecondStructure(s.structure, a.structure, inputs);
    var (second, p2) := EnsureStructure(a.structure, inputs.amendment, V11).value;
    AmendmentSucceeds(s.(structure := a.structure), a, second, inputs, p1, p2);
    StructureWellFormed(a.structure, inputs.amendment, V11);
  }

  lemma FirstRun(s: Store, inputs: Inputs)
    requires StoreWellFormed(s) && SeedFirst(s, inputs).Some?
    ensures EnsureStructure(s.structure, inputs.initial, V10).Some?
    ensures var (a, p1) := SeedFirst(s, inputs).value;
      && EnsureStructure(s.structure, inputs.initial, V10).value == (a.structure, p1)
      && RunTasks(s.(structure := a.structure), InitialTasks(inputs, p1)) == Some(a)
  {
    hide EnsureStructure, RunTasks, InitialTasks, WellFormed, Valid;
    StructureWellFormed(s.structure, inputs.initial, V10);
  }
}
