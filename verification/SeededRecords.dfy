/** What a successful seed leaves, record by record: texts, controls, areas and lines, in the words of the inputs. */
module SeededRecords {
  import opened Common
  import opened Definitions
  import opened PackSeeding
  import opened PackConvergence
  import opened PackReruns
  import Decimal

  /** The i-th record has the key, and no other record does. */
  ghost predicate Only<K, V>(rows: seq<Row<K, V>>, i: nat, k: K) {
    i < |rows| && rows[i].key == k && forall j :: 0 <= j < |rows| && rows[j].key == k ==> j == i
  }

  lemma OnlyPresent<K, V>(rows: seq<Row<K, V>>, k: K, v: V) returns (i: nat)
    requires Present(rows, k, v)
    ensures Position(rows, k) == Some(i) && Only(rows, i, k) && rows[i].value == v
  {
    PositionOfFound(rows, k);
    i := Position(rows, k).value;
    hide Found, Position;
    forall j | 0 <= j < |rows| && rows[j].key == k
      ensures j == i
    {
      PositionIsFirst(rows, k, j);
    }
  }

  lemma OnlyControl(controls: seq<Row<string, string>>, code: string)
    requires ControlOf(controls, code).Some?
    ensures Only(controls, ControlOf(controls, code).value, code)
  {
    var i := ControlOf(controls, code).value;
    hide Found, Position;
    forall j | 0 <= j < |controls| && controls[j].key == code
      ensures j == i
    {
      PositionIsFirst(controls, code, j);
    }
  }

  // ----- activities -----

  /** One activity has the key, with this text, and belongs to the one control of that code. */
  ghost predicate Activity(t: Store, k: Key, text: string, control: string) {
    exists i: nat :: Only(t.activities, i, k) && t.activities[i].value.content == text
                && Only(t.structure.controls, t.activities[i].value.control, control)
  }

  lemma DoneActivity(t: Store, task: Task)
    requires Done(t, task)
    ensures Activity(t, task.key, task.content, task.control)
  {
    var i := OnlyPresent(t.activities, task.key, ValueOf(t.structure, task));
    OnlyControl(t.structure.controls, task.control);
    hide Only, Present, Position, ControlOf;
  }

  /** The control that the initial blueprint names for a position. */
  ghost predicate NamedBy(items: seq<Item>, k: Key, control: string) {
    exists i :: 0 <= i < |items| && items[i].activityKey == k && items[i].control == control
  }

  lemma InitialActivity(t: Store, inputs: Inputs, p1: nat, n: nat) returns (control: string)
    requires Valid(inputs) && 1 <= n <= POSITIONS && forall x :: x in InitialTasks(inputs, p1) ==> Done(t, x)
    ensures Base(n) in inputs.authored && NamedBy(inputs.initial.items, Base(n), control)
    ensures Activity(t, Base(n), inputs.authored[Base(n)], control)
  {
    var task := InitialTasks(inputs, p1)[n - 1];
    assert task in InitialTasks(inputs, p1);
    control := task.control;
    assert Base(n) in inputs.authored;
    hide Activity;
    DoneActivity(t, task);
    ItemNamed(inputs.initial.items, Base(n));
    hide Done, InitialTasks, Valid, ItemOf;
  }

  lemma ItemNamed(items: seq<Item>, k: Key)
    requires k in ActivityKeys(items)
    ensures NamedBy(items, k, ItemOf(items, k).control)
  {
    hide ActivityKeys, ItemOf;
    var item := ItemOf(items, k);
    var i :| 0 <= i < |items| && items[i] == item;
  }

  lemma AmendmentActivity(t: Store, inputs: Inputs, p1: nat, p2: nat, n: nat)
    requires Valid(inputs) && 1 <= n <= POSITIONS
    requires forall x :: x in AmendmentTasks(inputs, p1, p2) ==> Done(t, x)
    ensures |inputs.amendment.items| == POSITIONS
    ensures n in REVISED ==>
      Revised(n) in inputs.revised
      && Activity(t, Revised(n), inputs.revised[Revised(n)], inputs.amendment.items[n - 1].control)
    ensures n !in REVISED ==>
      Base(n) in inputs.authored
      && Activity(t, Base(n), inputs.authored[Base(n)], inputs.amendment.items[n - 1].control)
  {
    assert ValidAmendment(inputs.amendment, inputs.initial);
    var item := inputs.amendment.items[n - 1];
    var task := AmendmentTasks(inputs, p1, p2)[n - 1];
    assert task in AmendmentTasks(inputs, p1, p2) && task == AmendmentTask(inputs, p1, p2, item);
    assert item.key == AmendmentKey(n) && item.source == Base(n);
    assert n in REVISED ==> Revised(n) in inputs.revised;
    assert Base(n) in inputs.authored;
    hide Activity, Done, AmendmentTasks, Valid, ValidAmendment;
    DoneActivity(t, task);
  }

  /**
   * Texts and controls: every initial activity has the authored text of its position and the control its
   * blueprint names; every replacement has the revised text; and both belong to the control that the
   * amendment names for the position, which for a shared activity is the same one.
   */
  lemma SeedWritesTexts(s: Store, inputs: Inputs, n: nat)
    requires StoreWellFormed(s) && Seed(s, inputs).Some? && 1 <= n <= 37
    ensures var t := Seed(s, inputs).value;
      && Base(n) in inputs.authored && |inputs.amendment.items| == 37
      && (exists control ::
            NamedBy(inputs.initial.items, Base(n), control) && Activity(t, Base(n), inputs.authored[Base(n)], control))
      && (if n in [1, 2, 8, 10, 11, 23, 37]
          then Revised(n) in inputs.revised
               && Activity(t, Revised(n), inputs.revised[Revised(n)], inputs.amendment.items[n - 1].control)
          else Activity(t, Base(n), inputs.authored[Base(n)], inputs.amendment.items[n - 1].control))
  {
    var g := SeedStages(s, inputs);
    var t := Seed(s, inputs).value;
    AllDoneAtEnd(s, inputs, g, t);
    assert REVISED == [1, 2, 8, 10, 11, 23, 37];
    SameRecords(g.amended, t);
    hide Seed, EnsureStructure, RunOn, SetScopes, RevisedScopes, Valid, InitialTasks, AmendmentTasks, Done, WellFormed,
         KeptRows, Activity, NamedBy;
    var control := InitialActivity(g.amended, inputs, g.p1, n);
    AmendmentActivity(g.amended, inputs, g.p1, g.p2, n);
  }

  lemma SameRecords(a: Store, t: Store)
    requires t.activities == a.activities && t.structure == a.structure
    ensures forall k, text, control :: Activity(a, k, text, control) ==> Activity(t, k, text, control)
  {
  }

  // ----- packs, areas and lines -----

  /** The line of one item: under the item's control, in the area of its phase, at its place. */
  ghost predicate Lined(st: Structure, p: nat, item: Item, sequence: nat) {
    exists c: nat, l: nat, a: nat ::
      && Only(st.controls, c, item.control) && Only(st.lines, l, LineKey(p, c))
      && st.lines[l].value == LineValue(a, sequence) && Only(st.areas, a, AreaKey(p, item.phase))
  }

  ghost predicate Area(st: Structure, p: nat, phase: Phase) {
    exists a: nat :: Only(st.areas, a, AreaKey(p, phase.code)) && st.areas[a].value == phase.definition
  }

  /** A pack as its blueprint has it: under its name, no draft, an area a phase and a line an item. */
  ghost predicate Filled(st: Structure, p: nat, v: Version, bp: Blueprint) {
    && Only(st.packs, p, v) && st.packs[p].value == bp.name && p < |st.states| && st.states[p] != Draft
    && (forall i :: 0 <= i < |bp.phases| ==> Area(st, p, bp.phases[i]))
    && (forall i :: 0 <= i < |bp.items| ==> Lined(st, p, bp.items[i], 10 * (i + 1)))
  }

  lemma AreaSettled(st: Structure, p: nat, bp: Blueprint, v: Version, i: nat)
    requires Settled(st, p, bp, v) && i < |bp.phases|
    ensures Area(st, p, bp.phases[i])
  {
    var w := AreaWants(p, bp.phases)[i];
    assert w in AreaWants(p, bp.phases);
    var a := OnlyPresent(st.areas, w.0, w.1);
    hide Only, Present, Position, LineWants, AreaWants;
  }

  lemma LineSettled(st: Structure, p: nat, bp: Blueprint, v: Version, i: nat)
    requires Settled(st, p, bp, v) && ValidPack(bp, v) && i < |bp.items|
    ensures Lined(st, p, bp.items[i], 10 * (i + 1))
  {
    var item, wants := bp.items[i], LineWants(st.controls, st.areas, p, bp.items).value;
    LineWantsHold(st.controls, st.areas, p, bp.items);
    assert wants[i] in wants;
    var l := OnlyPresent(st.lines, wants[i].0, wants[i].1);
    OnlyControl(st.controls, item.control);
    assert item.phase in CodesOf(bp.phases);
    var k :| 0 <= k < |bp.phases| && CodesOf(bp.phases)[k] == item.phase;
    var w := AreaWants(p, bp.phases)[k];
    assert w in AreaWants(p, bp.phases);
    var a := OnlyPresent(st.areas, w.0, w.1);
    hide Only, Present, Position, LineWants, AreaWants, ControlOf, CodesOf;
  }

  lemma PackSettled(st: Structure, p: nat, bp: Blueprint, v: Version)
    requires Settled(st, p, bp, v) && ValidPack(bp, v)
    ensures Filled(st, p, v, bp)
  {
    var i := OnlyPresent(st.packs, v, bp.name);
    assert |st.states| == |st.packs|;
    hide Only, Present, Position, Area, Lined, ValidPack;
    forall i | 0 <= i < |bp.phases|
      ensures Area(st, p, bp.phases[i])
    {
      AreaSettled(st, p, bp, v, i);
    }
    forall i | 0 <= i < |bp.items|
      ensures Lined(st, p, bp.items[i], 10 * (i + 1))
    {
      LineSettled(st, p, bp, v, i);
    }
    hide Settled;
  }

  /** Both packs are there as their blueprints have them. */
  lemma SeedFillsPacks(s: Store, inputs: Inputs) returns (p1: nat, p2: nat)
    requires StoreWellFormed(s) && Seed(s, inputs).Some?
    ensures var t := Seed(s, inputs).value;
      p1 != p2 && Filled(t.structure, p1, V10, inputs.initial) && Filled(t.structure, p2, V11, inputs.amendment)
  {
    var g := SeedStages(s, inputs);
    var t := Seed(s, inputs).value;
    BothSettled(s, inputs, g, t);
    assert ValidPack(inputs.initial, V10) && ValidPack(inputs.amendment, V11);
    hide Seed, EnsureStructure, RunOn, SetScopes, RevisedScopes, Valid, InitialTasks, AmendmentTasks, Settled,
         ValidPack, Filled, WellFormed;
    p1, p2 := g.p1, g.p2;
    PackSettled(t.structure, p1, inputs.initial, V10);
    PackSettled(t.structure, p2, inputs.amendment, V11);
  }

  // ----- the inputs -----

  /** The phase codes, spelled out. */
  const PHASES_13: seq<string> :=
    ["P01", "P02", "P03", "P04", "P05", "P06", "P07", "P08", "P09", "P10", "P11", "P12", "P13"]

  ghost predicate PackFile(bp: Blueprint, v: Version) {
    && bp.version == v && |bp.phases| == 13 && |bp.items| == 37
    && (forall i :: 0 <= i < 13 ==> bp.phases[i].code == PHASES_13[i])
    && (forall i :: 0 <= i < 37 ==> bp.items[i].phase in PHASES_13)
    && (forall i, j :: 0 <= i < j < 37 ==>
          bp.items[i].activityKey != bp.items[j].activityKey && bp.items[i].control != bp.items[j].control)
  }

  predicate Replaced(n: nat) { n == 1 || n == 2 || n == 8 || n == 10 || n == 11 || n == 23 || n == 37 }

  /** The amendment position by position: each goes back to the initial one, which it keeps or replaces. */
  predicate InPositions(items: seq<Item>) {
    && |items| == 37
    && forall i :: 0 <= i < 37 ==>
         && items[i].position == i + 1 && items[i].source == Base(i + 1)
         && items[i].key == if Replaced(i + 1) then Revised(i + 1) else Base(i + 1)
  }

  /** What the files of the module must hold: two packs, the amendment position by position, and all the texts. */
  ghost predicate Files(inputs: Inputs) {
    && PackFile(inputs.initial, V10) && PackFile(inputs.amendment, V11)
    && inputs.amendment.phases == inputs.initial.phases && InPositions(inputs.amendment.items)
    && (forall k :: k in inputs.authored <==> k.Base? && 1 <= k.n <= 37)
    && (forall k :: k in inputs.authored ==> exists i :: 0 <= i < 37 && inputs.initial.items[i].activityKey == k)
    && (forall k :: k in inputs.revised <==> k.Revised? && Replaced(k.n))
  }

  lemma TwoDigits(n: nat)
    requires 1 <= n <= 13
    ensures Decimal.ZeroFill2(Decimal.Print(n))
            == if n < 10 then ['0', '0' + n as char] else ['1', '0' + (n - 10) as char]
  {
  }

  lemma PhaseCodesSpelled()
    ensures PhaseCodes() == PHASES_13
  {
    forall i | 0 <= i < 13
      ensures PhaseCodes()[i] == PHASES_13[i]
    {
      TwoDigits(i + 1);
      Spelled(i);
    }
  }

  lemma Spelled(i: nat)
    requires i < 13
    ensures PHASES_13[i] == "P" + if i < 9 then ['0', '0' + (i + 1) as char] else ['1', '0' + (i - 9) as char]
  {
  }

  lemma ReplacedExactly(n: nat)
    ensures IsRevised(n) <==> Replaced(n)
  {
    assert REVISED[0] == 1 && REVISED[1] == 2 && REVISED[2] == 8 && REVISED[3] == 10 && REVISED[4] == 11
        && REVISED[5] == 23 && REVISED[6] == 37;
  }

  lemma PackFileExactly(bp: Blueprint, v: Version)
    ensures ValidPack(bp, v) <==> PackFile(bp, v)
  {
    PhaseCodesSpelled();
    hide PhaseCodes;
    var codes := CodesOf(bp.phases);
    assert |bp.phases| == 13 ==>
        (codes == PHASES_13 <==> forall i :: 0 <= i < 13 ==> bp.phases[i].code == PHASES_13[i]);
    if |bp.items| == 37 {
      DistinctItems(bp.items);
    }
    hide ActivityKeys, ControlCodes, NoDuplicates;
  }

  lemma DistinctItems(items: seq<Item>)
    ensures NoDuplicates(ActivityKeys(items)) && NoDuplicates(ControlCodes(items))
            <==> forall i, j :: 0 <= i < j < |items| ==>
                   items[i].activityKey != items[j].activityKey && items[i].control != items[j].control
  {
    var keys, codes := ActivityKeys(items), ControlCodes(items);
    if NoDuplicates(keys) && NoDuplicates(codes) {
      forall i, j | 0 <= i < j < |items|
        ensures items[i].activityKey != items[j].activityKey && items[i].control != items[j].control
      {
        assert keys[i] != keys[j] && codes[i] != codes[j];
      }
    }
  }

  /** The validation accepts exactly such files, and a seed succeeds only with them. */
  lemma FilesExactly(inputs: Inputs)
    ensures Valid(inputs) <==> Files(inputs)
  {
    PackFileExactly(inputs.initial, V10);
    PackFileExactly(inputs.amendment, V11);
    PositionsExactly(inputs.amendment, inputs.initial);
    if |inputs.initial.items| == 37 {
      TextsExactly(inputs);
    }
    assert PackFile(inputs.amendment, V11) ==> inputs.amendment.version == V11 && |inputs.amendment.items| == 37;
    assert PackFile(inputs.initial, V10) ==> |inputs.initial.items| == 37;
    hide ValidPack, PackFile, ValidAmendment, InPositions, Replaced, ValidContent;
  }

  lemma PositionsExactly(amendment: Blueprint, initial: Blueprint)
    ensures ValidAmendment(amendment, initial)
            <==> amendment.version == V11 && amendment.phases == initial.phases && InPositions(amendment.items)
  {
    forall n: nat
      ensures IsRevised(n) <==> Replaced(n)
    {
      ReplacedExactly(n);
    }
    hide IsRevised, Replaced;
  }

  lemma TextsExactly(inputs: Inputs)
    requires |inputs.initial.items| == 37
    ensures ValidContent(inputs)
            <==> && (forall k :: k in inputs.authored <==> k.Base? && 1 <= k.n <= 37)
                 && (forall k :: k in inputs.authored ==>
                       exists i :: 0 <= i < 37 && inputs.initial.items[i].activityKey == k)
                 && (forall k :: k in inputs.revised <==> k.Revised? && Replaced(k.n))
  {
    forall n: nat
      ensures n in REVISED <==> Replaced(n)
    {
      ReplacedExactly(n);
    }
    hide Replaced;
    forall k: Key
      ensures k in ActivityKeys(inputs.initial.items)
              <==> exists i :: 0 <= i < 37 && inputs.initial.items[i].activityKey == k
    {
      KeyListed(inputs.initial.items, k);
    }
    hide ActivityKeys;
  }

  lemma KeyListed(items: seq<Item>, k: Key)
    ensures k in ActivityKeys(items) <==> exists i :: 0 <= i < |items| && items[i].activityKey == k
  {
    var keys := ActivityKeys(items);
    if i :| 0 <= i < |items| && items[i].activityKey == k {
      assert keys[i] == k;
    }
    if k in keys {
      var i :| 0 <= i < |keys| && keys[i] == k;
      assert items[i].activityKey == k;
    }
  }
}
