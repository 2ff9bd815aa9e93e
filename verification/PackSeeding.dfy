/** Seeding the two ISO 9001 implementation packs and their activities (addons/pm_qms_iso9001/hooks.py). */
module PackSeeding {
  import opened Common
  import opened Definitions
  import Decimal

  datatype Version = V10 | V11

  /** ISO9001-INITIAL-Annn, ISO9001-INITIAL-V11-Annn, or any other definition key. */
  datatype Key = Base(n: nat) | Revised(n: nat) | OtherKey(text: string)

  datatype Phase = Phase(code: string, definition: string)

  /** A blueprint entry; position, source and key matter in the amendment only. */
  datatype Item = Item(activityKey: Key, position: nat, source: Key, key: Key, control: string, phase: string)

  datatype Blueprint = Blueprint(version: Version, name: string, phases: seq<Phase>, items: seq<Item>)

  /** The files of the module: two blueprints, the authored content and the content of the amendment. */
  datatype Inputs = Inputs(initial: Blueprint, amendment: Blueprint, authored: map<Key, string>,
                           revised: map<Key, string>)

  // ----- the store -----

  datatype PackState = Draft | Active | Retired

  datatype AreaKey = AreaKey(pack: nat, code: string)
  datatype LineKey = LineKey(pack: nat, control: nat)
  datatype LineValue = LineValue(area: nat, sequence: nat)
  datatype ActivityValue = ActivityValue(control: nat, content: string)

  /** Controls, packs, areas and pack lines; records are numbered in the order they were created. */
  datatype Structure = Structure(
    controls: seq<Row<string, string>>,
    packs: seq<Row<Version, string>>, states: seq<PackState>,
    areas: seq<Row<AreaKey, string>>, lines: seq<Row<LineKey, LineValue>>)

  /** The structure, the activities, and the packs each activity applies to. */
  datatype Store = Store(structure: Structure, activities: seq<Row<Key, ActivityValue>>, scopes: seq<set<nat>>)

  /** Every record refers to records that exist. */
  predicate WellFormed(st: Structure) {
    && |st.states| == |st.packs|
    && (forall i :: 0 <= i < |st.areas| ==> st.areas[i].key.pack < |st.packs|)
    && (forall i :: 0 <= i < |st.lines| ==>
          && st.lines[i].key.pack < |st.packs| && st.lines[i].key.control < |st.controls|
          && st.lines[i].value.area < |st.areas|)
  }

  predicate StoreWellFormed(s: Store) {
    WellFormed(s.structure) && |s.scopes| == |s.activities|
  }

  // ----- validation of the inputs -----

  const PHASES := 13
  const POSITIONS := 37
  const REVISED: seq<nat> := [1, 2, 8, 10, 11, 23, 37]

  function PhaseCode(i: nat): string { "P" + Decimal.ZeroFill2(Decimal.Print(i + 1)) }

  function PhaseCodes(): (codes: seq<string>)
    ensures |codes| == PHASES && forall i :: 0 <= i < PHASES ==> codes[i] == PhaseCode(i)
  {
    seq(PHASES, i requires 0 <= i < PHASES => PhaseCode(i))
  }

  function CodesOf(phases: seq<Phase>): (codes: seq<string>)
    ensures |codes| == |phases| && forall i :: 0 <= i < |phases| ==> codes[i] == phases[i].code
  {
    seq(|phases|, i requires 0 <= i < |phases| => phases[i].code)
  }

  function ActivityKeys(items: seq<Item>): (keys: seq<Key>)
    ensures |keys| == |items| && forall i :: 0 <= i < |items| ==> keys[i] == items[i].activityKey
  {
    seq(|items|, i requires 0 <= i < |items| => items[i].activityKey)
  }

  function ControlCodes(items: seq<Item>): (codes: seq<string>)
    ensures |codes| == |items| && forall i :: 0 <= i < |items| ==> codes[i] == items[i].control
  {
    seq(|items|, i requires 0 <= i < |items| => items[i].control)
  }

  /** _validate_pack_blueprint */
  predicate ValidPack(bp: Blueprint, v: Version) {
    && bp.version == v && CodesOf(bp.phases) == PhaseCodes() && |bp.items| == POSITIONS
    && NoDuplicates(ActivityKeys(bp.items)) && NoDuplicates(ControlCodes(bp.items))
    && forall i :: 0 <= i < |bp.items| ==> bp.items[i].phase in CodesOf(bp.phases)
  }

  predicate IsRevised(n: nat) { n in REVISED }

  function AmendmentKey(n: nat): Key { if IsRevised(n) then Revised(n) else Base(n) }

  /** _validate_amendment_blueprint */
  predicate ValidAmendment(amendment: Blueprint, initial: Blueprint) {
    && amendment.version == V11 && amendment.phases == initial.phases && |amendment.items| == POSITIONS
    && forall i :: 0 <= i < POSITIONS ==>
         && amendment.items[i].position == i + 1
         && amendment.items[i].source == Base(i + 1)
         && amendment.items[i].key == AmendmentKey(i + 1)
  }

  /**
   * The authored content covers exactly the initial positions, each in the blueprint; the amendment's the
   * revised ones.
   */
  predicate ValidContent(inputs: Inputs) {
    && (forall k :: k in inputs.authored ==> k.Base? && 1 <= k.n <= POSITIONS)
    && (forall n :: 1 <= n <= POSITIONS ==> Base(n) in inputs.authored)
    && (forall k :: k in inputs.authored ==> k in ActivityKeys(inputs.initial.items))
    && (forall k :: k in inputs.revised ==> k.Revised? && IsRevised(k.n))
    && (forall n :: n in REVISED ==> Revised(n) in inputs.revised)
  }

  predicate Valid(inputs: Inputs) {
    ValidAmendment(inputs.amendment, inputs.initial) && ValidContent(inputs)
    && ValidPack(inputs.initial, V10) && ValidPack(inputs.amendment, V11)
  }

  // ----- pack structure -----

  /** The control of a code, if exactly one has it. */
  function ControlOf(controls: seq<Row<string, string>>, code: string): (r: Option<nat>)
    ensures r.Some? ==> r.value < |controls| && controls[r.value].key == code
  {
    if |Found(controls, code)| == 1 then Position(controls, code) else None
  }

  function AreaWants(p: nat, phases: seq<Phase>): (wants: seq<(AreaKey, string)>)
    ensures |wants| == |phases|
    ensures forall i :: 0 <= i < |phases| ==> wants[i] == (AreaKey(p, phases[i].code), phases[i].definition)
  {
    seq(|phases|, i requires 0 <= i < |phases| => (AreaKey(p, phases[i].code), phases[i].definition))
  }

  /** The lines of a pack, item by item; None when a control or a phase is missing. */
  function LineWants(controls: seq<Row<string, string>>, areas: seq<Row<AreaKey, string>>, p: nat, items: seq<Item>)
    : Option<seq<(LineKey, LineValue)>>
  {
    if items == [] then Some([])
    else
      var n := |items| - 1;
      var earlier := LineWants(controls, areas, p, items[..n]);
      var control := ControlOf(controls, items[n].control);
      var area := Position(areas, AreaKey(p, items[n].phase));
      if earlier.None? || control.None? || area.None? then None
      else Some(earlier.value + [(LineKey(p, control.value), LineValue(area.value, 10 * (n + 1)))])
  }

  /** The codes of a pack's areas. */
  function AreaCodes(areas: seq<Row<AreaKey, string>>, p: nat): seq<string> {
    if areas == [] then []
    else
      var earlier, last := AreaCodes(areas[..|areas| - 1], p), areas[|areas| - 1].key;
      if last.pack == p then earlier + [last.code] else earlier
  }

  /** The control codes of a pack's lines. */
  function LineCodes(controls: seq<Row<string, string>>, lines: seq<Row<LineKey, LineValue>>, p: nat): seq<string>
    requires forall i :: 0 <= i < |lines| ==> lines[i].key.control < |controls|
  {
    if lines == [] then []
    else
      var earlier, last := LineCodes(controls, lines[..|lines| - 1], p), lines[|lines| - 1].key;
      if last.pack == p then earlier + [controls[last.control].key] else earlier
  }

  /** The guards for a pack that is not a draft: its areas and controls are exactly the blueprint's. */
  predicate Matches(st: Structure, p: nat, bp: Blueprint)
    requires WellFormed(st)
  {
    && |AreaCodes(st.areas, p)| == |bp.phases| && ToSet(AreaCodes(st.areas, p)) == ToSet(CodesOf(bp.phases))
    && ToSet(LineCodes(st.controls, st.lines, p)) == ToSet(ControlCodes(bp.items))
  }

  /** The pack itself, found or created as a draft. */
  function EnsurePack(st: Structure, bp: Blueprint, v: Version): Option<(Structure, nat)>
    requires WellFormed(st)
  {
    var packs := Ensure(st.packs, v, bp.name, true);
    if packs.None? then None
    else
      var p := Position(packs.value, v);
      if p.None? then None
      else
        var states := if |packs.value| > |st.packs| then st.states + [Draft] else st.states;
        Some((st.(packs := packs.value, states := states), p.value))
  }

  /** Areas and lines of a pack; only a draft pack may get new ones, and it is active afterwards. */
  function EnsureContents(st: Structure, p: nat, bp: Blueprint): Option<Structure>
    requires WellFormed(st) && p < |st.states|
  {
    var draft := st.states[p].Draft?;
    if !draft && !Matches(st, p, bp) then None
    else
      var areas := EnsureAll(st.areas, AreaWants(p, bp.phases), draft);
      if areas.None? then None
      else
        var wants := LineWants(st.controls, areas.value, p, bp.items);
        if wants.None? then None
        else
          var lines := EnsureAll(st.lines, wants.value, draft);
          if lines.None? then None
          else
            Some(st.(areas := areas.value, lines := lines.value, states := if draft then st.states[p := Active]
                                                                           else st.states))
  }

  lemma EnsurePackHolds(st: Structure, bp: Blueprint, v: Version)
    requires WellFormed(st) && EnsurePack(st, bp, v).Some?
    ensures var (t, p) := EnsurePack(st, bp, v).value;
      && WellFormed(t) && p < |t.packs| == |t.states| && Position(t.packs, v) == Some(p) && Present(t.packs, v, bp.name)
      && t == st.(packs := t.packs, states := t.states)
      && (forall q: Version :: Position(st.packs, q).Some? ==> Position(t.packs, q) == Position(st.packs, q))
      && (forall q: Version :: Found(st.packs, q) != [] ==> Found(t.packs, q) == Found(st.packs, q))
      && (if Position(st.packs, v) == Some(p) then t == st
          else p == |st.packs| && t.states == st.states + [Draft] && Position(st.packs, v).None?)
  {
    hide Found, Position;
    forall q: Version
      ensures Position(st.packs, q).Some? ==>
        Position(Ensure(st.packs, v, bp.name, true).value, q) == Position(st.packs, q)
      ensures Found(st.packs, q) != [] ==> Found(Ensure(st.packs, v, bp.name, true).value, q) == Found(st.packs, q)
    {
      EnsureKeeps(st.packs, v, bp.name, true, q);
    }
    EnsureKeeps(st.packs, v, bp.name, true, v);
    PositionAppended(st.packs, Row(v, bp.name), v);
    PositionOfFound(st.packs, v);
  }

  /** _ensure_pack_structure */
  function EnsureStructure(st: Structure, bp: Blueprint, v: Version): Option<(Structure, nat)>
    requires WellFormed(st)
  {
    hide *;
    if !ValidPack(bp, v) then None
    else
      var pack := EnsurePack(st, bp, v);
      if pack.None? then None
      else
        EnsurePackHolds(st, bp, v);
        var contents := EnsureContents(pack.value.0, pack.value.1, bp);
        if contents.None? then None else Some((contents.value, pack.value.1))
  }

  lemma EnsureContentsWellFormed(st: Structure, p: nat, bp: Blueprint)
    requires WellFormed(st) && p < |st.states| && EnsureContents(st, p, bp).Some?
    ensures WellFormed(EnsureContents(st, p, bp).value)
  {
    var draft := st.states[p].Draft?;
    var areas := EnsureAll(st.areas, AreaWants(p, bp.phases), draft).value;
    var wants := LineWants(st.controls, areas, p, bp.items).value;
    var lines := EnsureAll(st.lines, wants, draft).value;
    OnlyWantedAdded(st.areas, AreaWants(p, bp.phases), draft);
    OnlyWantedAdded(st.lines, wants, draft);
    LineWantsHold(st.controls, areas, p, bp.items);
    hide EnsureAll, LineWants, Matches;
    forall i | 0 <= i < |areas|
      ensures areas[i].key.pack < |st.packs|
    {
      if i >= |st.areas| {
        assert areas[|st.areas|..][i - |st.areas|] in areas[|st.areas|..];
      }
    }
    forall i | 0 <= i < |lines|
      ensures lines[i].key.pack < |st.packs| && lines[i].key.control < |st.controls| && lines[i].value.area < |areas|
    {
      if i >= |st.lines| {
        assert lines[|st.lines|..][i - |st.lines|] in lines[|st.lines|..];
      }
    }
  }

  /** What the lines of a pack look like when every control and phase is found. */
  lemma {:induction false} LineWantsHold(controls: seq<Row<string, string>>, areas: seq<Row<AreaKey, string>>, p: nat,
                                         items: seq<Item>)
    ensures LineWants(controls, areas, p, items).Some? <==>
            forall i :: 0 <= i < |items| ==>
              ControlOf(controls, items[i].control).Some? && Position(areas, AreaKey(p, items[i].phase)).Some?
    ensures LineWants(controls, areas, p, items).Some? ==>
      var wants := LineWants(controls, areas, p, items).value;
      |wants| == |items| && forall i :: 0 <= i < |items| ==>
        && wants[i].0 == LineKey(p, ControlOf(controls, items[i].control).value)
        && wants[i].1 == LineValue(Position(areas, AreaKey(p, items[i].phase)).value, 10 * (i + 1))
  {
    hide ControlOf, Position;
    if items != [] {
      LineWantsHold(controls, areas, p, items[..|items| - 1]);
    }
  }

  lemma StructureWellFormed(st: Structure, bp: Blueprint, v: Version)
    requires WellFormed(st) && EnsureStructure(st, bp, v).Some?
    ensures WellFormed(EnsureStructure(st, bp, v).value.0)
  {
    hide WellFormed, EnsurePack, EnsureContents, ValidPack;
    EnsurePackHolds(st, bp, v);
    var (t, p) := EnsurePack(st, bp, v).value;
    EnsureContentsWellFormed(t, p, bp);
  }

  // ----- activities -----

  /** One activity to ensure for a pack, and the scopes it is given one after the other. */
  datatype Task = Task(pack: nat, control: string, phase: string, key: Key, content: string,
                       scopes: seq<(Key, set<nat>)>)

  /** The control exists once, and its line in the pack lies in the phase. */
  predicate Aligned(st: Structure, task: Task) {
    var control := ControlOf(st.controls, task.control);
    && control.Some?
    && var line := Position(st.lines, LineKey(task.pack, control.value));
       && line.Some? && st.lines[line.value].value.area < |st.areas|
       && st.areas[st.lines[line.value].value.area].key.code == task.phase
  }

  function ValueOf(st: Structure, task: Task): ActivityValue
    requires Aligned(st, task)
  {
    ActivityValue(ControlOf(st.controls, task.control).value, task.content)
  }

  /** _set_activity_scope on the activity of a key. */
  function SetScope(activities: seq<Row<Key, ActivityValue>>, scopes: seq<set<nat>>, k: Key,
                    packs: set<nat>): (r: seq<set<nat>>)
    requires |scopes| == |activities|
    ensures |r| == |scopes|
  {
    var at := Position(activities, k);
    if at.None? then scopes else scopes[at.value := packs]
  }

  function SetScopes(activities: seq<Row<Key, ActivityValue>>, scopes: seq<set<nat>>,
                     sets: seq<(Key, set<nat>)>): (r: seq<set<nat>>)
    requires |scopes| == |activities|
    ensures |r| == |scopes|
  {
    if sets == [] then scopes
    else
      var last := sets[|sets| - 1];
      SetScope(activities, SetScopes(activities, scopes, sets[..|sets| - 1]), last.0, last.1)
  }

  /** _ensure_activity and the _set_activity_scope calls that follow it. */
  function RunTask(s: Store, task: Task): (r: Option<Store>)
    requires |s.scopes| == |s.activities|
    ensures r.Some? ==> |r.value.scopes| == |r.value.activities| && r.value.structure == s.structure
  {
    if !Aligned(s.structure, task) then None
    else
      var activities := Ensure(s.activities, task.key, ValueOf(s.structure, task), true);
      if activities.None? then None
      else
        var scopes := if |activities.value| > |s.activities| then s.scopes + [{}] else s.scopes;
        Some(Store(s.structure, activities.value, SetScopes(activities.value, scopes, task.scopes)))
  }

  function RunTasks(s: Store, tasks: seq<Task>): (r: Option<Store>)
    requires |s.scopes| == |s.activities|
    ensures r.Some? ==> |r.value.scopes| == |r.value.activities| && r.value.structure == s.structure
  {
    if tasks == [] then Some(s)
    else
      hide RunTask;
      var earlier := RunTasks(s, tasks[..|tasks| - 1]);
      if earlier.None? then None else RunTask(earlier.value, tasks[|tasks| - 1])
  }

  /** The blueprint entry of an activity key; a valid blueprint has it. */
  function ItemOf(items: seq<Item>, k: Key): (r: Item)
    ensures k in ActivityKeys(items) ==> r in items && r.activityKey == k
  {
    if items == [] then Item(k, 0, k, k, "", "")
    else
      var n := |items| - 1;
      if items[n].activityKey == k then items[n] else ItemOf(items[..n], k)
  }

  function ContentOf(content: map<Key, string>, k: Key): string {
    if k in content then content[k] else ""
  }

  /** The initial activity of a position: authored content, scoped to the first pack alone. */
  function InitialTask(inputs: Inputs, p1: nat, n: nat): Task {
    var item := ItemOf(inputs.initial.items, Base(n));
    Task(p1, item.control, item.phase, Base(n), ContentOf(inputs.authored, Base(n)), [(Base(n), {p1})])
  }

  function InitialTasks(inputs: Inputs, p1: nat): (tasks: seq<Task>)
    ensures |tasks| == POSITIONS && forall i :: 0 <= i < POSITIONS ==> tasks[i] == InitialTask(inputs, p1, i + 1)
  {
    seq(POSITIONS, i requires 0 <= i < POSITIONS => InitialTask(inputs, p1, i + 1))
  }

  /** The amendment's activity of an entry: scoped to the second pack, then to both when it is shared. */
  function AmendmentTask(inputs: Inputs, p1: nat, p2: nat, item: Item): Task {
    var shared := item.key == item.source;
    var content := if shared then ContentOf(inputs.authored, item.source) else ContentOf(inputs.revised, item.key);
    Task(p2, item.control, item.phase, item.key, content,
         if shared then [(item.key, {p2}), (item.source, {p1, p2})] else [(item.key, {p2})])
  }

  function AmendmentTasks(inputs: Inputs, p1: nat, p2: nat): (tasks: seq<Task>)
    ensures |tasks| == |inputs.amendment.items|
    ensures forall i :: 0 <= i < |tasks| ==> tasks[i] == AmendmentTask(inputs, p1, p2, inputs.amendment.items[i])
  {
    seq(|inputs.amendment.items|, i requires 0 <= i < |inputs.amendment.items| =>
      AmendmentTask(inputs, p1, p2, inputs.amendment.items[i]))
  }

  /** The last pass: revised activities of the first pack are narrowed to it. */
  function RevisedScopes(p1: nat, n: nat): (sets: seq<(Key, set<nat>)>)
    requires n <= |REVISED|
    ensures |sets| == n && forall i :: 0 <= i < n ==> sets[i] == (Base(REVISED[i]), {p1})
  {
    seq(n, i requires 0 <= i < n => (Base(REVISED[i]), {p1}))
  }

  // ----- the whole seed -----

  /** Runs a pack's tasks on an ensured structure. */
  function RunOn(s: Store, structure: Structure, tasks: seq<Task>): (r: Option<Store>)
    requires StoreWellFormed(s) && WellFormed(structure)
    ensures r.Some? ==> StoreWellFormed(r.value) && r.value.structure == structure
  {
    hide RunTasks, WellFormed;
    RunTasks(s.(structure := structure), tasks)
  }

  /** seed_iso9001_initial_implementation, up to the amendment pack. */
  function SeedFirst(s: Store, inputs: Inputs): (r: Option<(Store, nat)>)
    requires StoreWellFormed(s)
    ensures r.Some? ==> StoreWellFormed(r.value.0)
  {
    hide EnsureStructure, WellFormed, RunOn, InitialTasks, Valid;
    var ensured := EnsureStructure(s.structure, inputs.initial, V10);
    if !Valid(inputs) || ensured.None? then None
    else
      StructureWellFormed(s.structure, inputs.initial, V10);
      var run := RunOn(s, ensured.value.0, InitialTasks(inputs, ensured.value.1));
      if run.None? then None else Some((run.value, ensured.value.1))
  }

  /** The rest: the amendment pack, its activities, and the revised activities narrowed to the first pack. */
  function Seed(s: Store, inputs: Inputs): (r: Option<Store>)
    requires StoreWellFormed(s)
    ensures r.Some? ==> StoreWellFormed(r.value)
  {
    hide EnsureStructure, WellFormed, RunOn, AmendmentTasks, SeedFirst, SetScopes;
    var first := SeedFirst(s, inputs);
    if first.None? then None
    else
      var (a, p1) := first.value;
      var ensured := EnsureStructure(a.structure, inputs.amendment, V11);
      if ensured.None? then None
      else
        StructureWellFormed(a.structure, inputs.amendment, V11);
        var run := RunOn(a, ensured.value.0, AmendmentTasks(inputs, p1, ensured.value.1));
        if run.None? then None
        else
          var b := run.value;
          Some(b.(scopes := SetScopes(b.activities, b.scopes, RevisedScopes(p1, |REVISED|))))
  }
}
