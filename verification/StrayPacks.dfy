/** A draft pack with an area its blueprint lacks: it is seeded once, and never again. */
module StrayPacks {
  import opened Common
  import opened Definitions
  import opened PackSeeding
  import opened PackConvergence
  import opened PackReruns
  import opened FreshInstallation

  /**
   * Whatever the inputs: when the first pack is an unfilled draft that holds an area its blueprint does
   * not have, the seed succeeds and every later one is refused.
   */
  lemma StrayAreaRefusesRerun(s: Store, inputs: Inputs, p: nat, stray: string)
    requires StoreWellFormed(s) && Valid(inputs) && Startable(s, inputs) && SharedAgree(inputs)
    requires ControlsExist(s.structure.controls, inputs.initial.items)
    requires ControlsExist(s.structure.controls, inputs.amendment.items)
    requires Position(s.structure.packs, V10) == Some(p)
    requires stray in AreaCodes(s.structure.areas, p) && stray !in CodesOf(inputs.initial.phases)
    ensures Seed(s, inputs).Some? && Seed(Seed(s, inputs).value, inputs) == None
  {
    hide Valid, Startable, SharedAgree, ControlsExist, WellFormed, Seed, Position, AreaCodes, LineCodes;
    var p1, p2 := UnfilledSeedSucceeds(s, inputs);
    SeedKeepsPacks(s, inputs, p);
  }

  lemma SeedKeepsPacks(s: Store, inputs: Inputs, p: nat)
    requires StoreWellFormed(s) && Seed(s, inputs).Some? && Position(s.structure.packs, V10) == Some(p)
    ensures Position(Seed(s, inputs).value.structure.packs, V10) == Some(p)
  {
    PositionOfFound(s.structure.packs, V10);
    hide EnsureStructure, WellFormed, RunOn, AmendmentTasks, InitialTasks, Valid, SetScopes, RevisedScopes, Position,
         Found, KeptRows, Settled;
    StructureSettles(s.structure, inputs.initial, V10);
    var (first, _) := EnsureStructure(s.structure, inputs.initial, V10).value;
    StructureWellFormed(s.structure, inputs.initial, V10);
    StructureSettles(first, inputs.amendment, V11);
  }

  // ----- a concrete store -----

  function SampleItem(n: nat, key: Key): Item { Item(Base(n), n, Base(n), key, PhaseCode(n), PhaseCode(0)) }

  function SamplePhases(): (phases: seq<Phase>)
    ensures |phases| == PHASES && forall i :: 0 <= i < PHASES ==> phases[i] == Phase(PhaseCode(i), "")
  {
    seq(PHASES, i requires 0 <= i < PHASES => Phase(PhaseCode(i), ""))
  }

  function InitialItems(): (items: seq<Item>)
    ensures |items| == POSITIONS && forall i :: 0 <= i < POSITIONS ==> items[i] == SampleItem(i + 1, Base(i + 1))
  {
    seq(POSITIONS, i requires 0 <= i < POSITIONS => SampleItem(i + 1, Base(i + 1)))
  }

  function AmendmentItems(): (items: seq<Item>)
    ensures |items| == POSITIONS && forall i :: 0 <= i < POSITIONS ==>
      items[i] == SampleItem(i + 1, AmendmentKey(i + 1))
  {
    seq(POSITIONS, i requires 0 <= i < POSITIONS => SampleItem(i + 1, AmendmentKey(i + 1)))
  }

  /** Thirteen phases and thirty-seven items, all in the first phase and each with a control of its own. */
  function SampleInputs(): Inputs {
    Inputs(Blueprint(V10, "first", SamplePhases(), InitialItems()),
           Blueprint(V11, "second", SamplePhases(), AmendmentItems()),
           map n | 1 <= n <= POSITIONS :: Base(n) := "",
           map n | n in REVISED :: Revised(n) := "")
  }

  function SampleControls(): (controls: seq<Row<string, string>>)
    ensures |controls| == POSITIONS && forall i :: 0 <= i < POSITIONS ==> controls[i] == Row(PhaseCode(i + 1), "")
  {
    seq(POSITIONS, i requires 0 <= i < POSITIONS => Row(PhaseCode(i + 1), ""))
  }

  /** All the controls, and a draft of the first pack that holds one area of its own. */
  function SampleStore(): Store {
    Store(Structure(SampleControls(), [Row(V10, "first")], [Draft], [Row(AreaKey(0, "own"), "")], []), [], [])
  }

  /** The shape both blueprints share. */
  predicate Numbered(bp: Blueprint) {
    && bp.phases == SamplePhases() && |bp.items| == POSITIONS
    && forall i :: 0 <= i < POSITIONS ==>
         && bp.items[i].activityKey == Base(i + 1)
         && bp.items[i].control == PhaseCode(i + 1) && bp.items[i].phase == PhaseCode(0)
  }

  lemma SampleNumbered()
    ensures Numbered(SampleInputs().initial) && Numbered(SampleInputs().amendment)
  {
    hide PhaseCode, AmendmentKey;
  }

  lemma PhasesAreCodes(phases: seq<Phase>)
    requires phases == SamplePhases()
    ensures CodesOf(phases) == PhaseCodes() && PhaseCode(0) in CodesOf(phases)
  {
    hide PhaseCode;
    assert CodesOf(phases)[0] == PhaseCode(0);
  }

  lemma NumberedDistinct(bp: Blueprint)
    requires Numbered(bp)
    ensures NoDuplicates(ActivityKeys(bp.items)) && NoDuplicates(ControlCodes(bp.items))
  {
    hide PhaseCode;
    var codes := ControlCodes(bp.items);
    forall i, j | 0 <= i < j < |codes|
      ensures codes[i] != codes[j]
    {
      assert codes[i] == bp.items[i].control && codes[j] == bp.items[j].control;
      PhaseCodesDiffer(i + 1, j + 1);
    }
  }

  lemma NumberedValid(bp: Blueprint, v: Version)
    requires Numbered(bp) && bp.version == v
    ensures ValidPack(bp, v)
  {
    NumberedDistinct(bp);
    PhasesAreCodes(bp.phases);
    hide PhaseCode, PhaseCodes, SamplePhases, CodesOf, ActivityKeys, ControlCodes, NoDuplicates;
  }

  lemma NumberedItem(bp: Blueprint, n: nat)
    requires Numbered(bp) && 1 <= n <= POSITIONS
    ensures Base(n) in ActivityKeys(bp.items) && ItemOf(bp.items, Base(n)).control == PhaseCode(n)
  {
    hide PhaseCode, SamplePhases;
    assert ActivityKeys(bp.items)[n - 1] == Base(n);
    var item := ItemOf(bp.items, Base(n));
    var i :| 0 <= i < |bp.items| && bp.items[i] == item;
  }

  lemma SampleAmendment()
    ensures ValidAmendment(SampleInputs().amendment, SampleInputs().initial)
  {
    hide PhaseCode, AmendmentKey;
  }

  lemma SampleValid()
    ensures Valid(SampleInputs()) && SharedAgree(SampleInputs())
  {
    var inputs := SampleInputs();
    SampleNumbered();
    SampleVersions();
    SampleAmendment();
    SampleContent();
    NumberedValid(inputs.initial, V10);
    NumberedValid(inputs.amendment, V11);
    assert Valid(inputs);
    hide *;
    SampleShared(inputs);
  }

  lemma SampleShared(inputs: Inputs)
    requires Numbered(inputs.initial) && Numbered(inputs.amendment)
    requires ValidAmendment(inputs.amendment, inputs.initial)
    ensures SharedAgree(inputs)
  {
    hide PhaseCode, AmendmentKey, ItemOf, SamplePhases;
    forall i: nat | i < POSITIONS
      ensures ItemOf(inputs.initial.items, Base(i + 1)).control == inputs.amendment.items[i].control
    {
      NumberedItem(inputs.initial, i + 1);
    }
  }

  lemma SampleVersions()
    ensures SampleInputs().initial.version == V10 && SampleInputs().amendment.version == V11
  {
  }

  lemma SampleContent()
    ensures ValidContent(SampleInputs())
  {
    SampleNumbered();
    var inputs := SampleInputs();
    AuthoredKeys(inputs.authored);
    RevisedKeys(inputs.revised);
    hide *;
    AuthoredListed(inputs.authored, inputs.initial);
    ContentByParts(inputs);
  }

  lemma ContentByParts(inputs: Inputs)
    requires forall k :: k in inputs.authored ==> k.Base? && 1 <= k.n <= POSITIONS
    requires forall n :: 1 <= n <= POSITIONS ==> Base(n) in inputs.authored
    requires forall k :: k in inputs.authored ==> k in ActivityKeys(inputs.initial.items)
    requires forall k :: k in inputs.revised ==> k.Revised? && IsRevised(k.n)
    requires forall n :: n in REVISED ==> Revised(n) in inputs.revised
    ensures ValidContent(inputs)
  {
    hide ActivityKeys, IsRevised;
  }

  lemma AuthoredListed(authored: map<Key, string>, bp: Blueprint)
    requires Numbered(bp) && forall k :: k in authored ==> k.Base? && 1 <= k.n <= POSITIONS
    ensures forall k :: k in authored ==> k in ActivityKeys(bp.items)
  {
    hide PhaseCode, Numbered, ActivityKeys;
    forall k | k in authored
      ensures k in ActivityKeys(bp.items)
    {
      NumberedItem(bp, k.n);
    }
  }

  lemma AuthoredKeys(authored: map<Key, string>)
    requires authored == map n | 1 <= n <= POSITIONS :: Base(n) := ""
    ensures forall k :: k in authored ==> k.Base? && 1 <= k.n <= POSITIONS
    ensures forall n :: 1 <= n <= POSITIONS ==> Base(n) in authored
  {
  }

  lemma RevisedKeys(revised: map<Key, string>)
    requires revised == map n | n in REVISED :: Revised(n) := ""
    ensures forall k :: k in revised ==> k.Revised? && IsRevised(k.n)
    ensures forall n :: n in REVISED ==> Revised(n) in revised
  {
  }

  lemma {:induction false} FoundOnce(rows: seq<Row<string, string>>, i: nat)
    requires i < |rows| && forall j, k :: 0 <= j < k < |rows| ==> rows[j].key != rows[k].key
    ensures Found(rows, rows[i].key) == [rows[i]]
  {
    var n := |rows| - 1;
    if i < n {
      FoundOnce(rows[..n], i);
    } else {
      NotFound(rows[..n], rows[n].key);
    }
  }

  lemma {:induction false} NotFound(rows: seq<Row<string, string>>, k: string)
    requires forall j :: 0 <= j < |rows| ==> rows[j].key != k
    ensures Found(rows, k) == []
  {
    if rows != [] {
      NotFound(rows[..|rows| - 1], k);
    }
  }

  lemma SampleControlsExist(items: seq<Item>)
    requires items == SampleInputs().initial.items || items == SampleInputs().amendment.items
    ensures ControlsExist(SampleControls(), items)
  {
    hide PhaseCode, AmendmentKey;
    var controls := SampleControls();
    forall j, k | 0 <= j < k < |controls|
      ensures controls[j].key != controls[k].key
    {
      PhaseCodesDiffer(j + 1, k + 1);
    }
    hide Found, Position;
    forall i | 0 <= i < |items|
      ensures ControlOf(controls, items[i].control).Some?
    {
      FoundOnce(controls, i);
      PositionOfFound(controls, items[i].control);
    }
  }

  lemma OwnIsNoPhase()
    ensures "own" !in CodesOf(SampleInputs().initial.phases)
  {
    var codes := CodesOf(SampleInputs().initial.phases);
    forall i | 0 <= i < |codes|
      ensures codes[i] != "own"
    {
      assert codes[i] == PhaseCode(i) && codes[i][0] == 'P';
    }
  }

  lemma OwnAreaOnly(areas: seq<Row<AreaKey, string>>, c: string)
    requires areas == [Row(AreaKey(0, "own"), "")]
    ensures Found(areas, AreaKey(0, c)) == (if c == "own" then areas else []) && AreaCodes(areas, 0) == ["own"]
  {
    assert areas[..0] == [];
  }

  lemma OneDraft(packs: seq<Row<Version, string>>)
    requires packs == [Row(V10, "first")]
    ensures Present(packs, V10, "first") && Position(packs, V10) == Some(0) && Position(packs, V11) == None
  {
    assert packs[..0] == [];
  }

  lemma SampleUnfilled(st: Structure, bp: Blueprint)
    requires st == SampleStore().structure && bp.name == "first" && "own" !in CodesOf(bp.phases)
    ensures WellFormed(st) && Unfilled(st, bp, V10)
  {
    hide CodesOf, SampleControls;
    OneDraft(st.packs);
    hide Present, Position;
    forall c: string | c in CodesOf(bp.phases)
      ensures Found(st.areas, AreaKey(0, c)) == []
    {
      OwnAreaOnly(st.areas, c);
    }
    assert forall c: nat :: Found(st.lines, LineKey(0, c)) == [];
  }

  lemma SampleStartable()
    ensures StoreWellFormed(SampleStore()) && Startable(SampleStore(), SampleInputs())
    ensures Position(SampleStore().structure.packs, V10) == Some(0)
    ensures "own" in AreaCodes(SampleStore().structure.areas, 0)
  {
    var st := SampleStore().structure;
    OwnIsNoPhase();
    SampleNamed();
    SampleUnfilled(st, SampleInputs().initial);
    OneDraft(st.packs);
    OwnAreaOnly(st.areas, "own");
    assert NoneSeeded(SampleStore().activities);
    hide SampleInputs, SampleControls, CodesOf, Position, AreaCodes, NoneSeeded, Blank, Found;
  }

  lemma SampleNamed()
    ensures SampleInputs().initial.name == "first"
  {
  }

  /** A second seed of this store is refused although the first one succeeds. */
  lemma StrayPackRefusesRerun()
    ensures StoreWellFormed(SampleStore())
    ensures Seed(SampleStore(), SampleInputs()).Some?
    ensures Seed(Seed(SampleStore(), SampleInputs()).value, SampleInputs()) == None
  {
    var s, inputs := SampleStore(), SampleInputs();
    assert s.structure.controls == SampleControls();
    SampleValid();
    SampleStartable();
    SampleControlsExist(inputs.initial.items);
    SampleControlsExist(inputs.amendment.items);
    OwnIsNoPhase();
    hide *;
    StrayAreaRefusesRerun(s, inputs, 0, "own");
  }
}
