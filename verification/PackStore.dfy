/** The record store the seeders loop over and write to. */
module PackStore {
  import opened Common
  import opened Definitions
  import opened PackSeeding

  class Records {
    var structure: Structure
    var activities: seq<Row<Key, ActivityValue>>
    var scopes: seq<set<nat>>

    function Contents(): Store reads this { Store(structure, activities, scopes) }

    constructor (s: Store)
      ensures Contents() == s
    {
      structure, activities, scopes := s.structure, s.activities, s.scopes;
    }

    method Restore(s: Store)
      modifies this
      ensures Contents() == s
    {
      structure, activities, scopes := s.structure, s.activities, s.scopes;
    }

    /** The loop over the phases: each area is found as defined or created. */
    method EnsureAreas(p: nat, phases: seq<Phase>, draft: bool) returns (ok: bool)
      modifies this
      ensures ok == EnsureAll(old(structure.areas), AreaWants(p, phases), draft).Some?
      ensures ok ==>
        Contents() == old(Contents()).(structure :=
          old(structure).(areas := EnsureAll(old(structure.areas), AreaWants(p, phases), draft).value))
    {
      hide Ensure, EnsureAll;
      ghost var wants := AreaWants(p, phases);
      ghost var before := structure.areas;
      var i := 0;
      NothingToDo(before, wants[..0], draft);
      while i < |phases|
        invariant 0 <= i <= |phases|
        invariant EnsureAll(before, wants[..i], draft) == Some(structure.areas)
        invariant Contents() == old(Contents()).(structure := old(structure).(areas := structure.areas))
      {
        EnsureAllStep(before, wants, i, draft);
        var areas := Ensure(structure.areas, AreaKey(p, phases[i].code), phases[i].definition, draft);
        if areas.None? {
          return false;
        }
        structure := structure.(areas := areas.value);
        i := i + 1;
      }
      assert wants[..i] == wants;
      ok := true;
    }

    /** The loop over the items: each control has its line in the area of its phase. */
    method EnsureLines(p: nat, items: seq<Item>, draft: bool) returns (ok: bool)
      modifies this
      ensures var wants := LineWants(old(structure.controls), old(structure.areas), p, items);
        var lines := if wants.None? then None else EnsureAll(old(structure.lines), wants.value, draft);
        && ok == lines.Some?
        && (ok ==> Contents() == old(Contents()).(structure := old(structure).(lines := lines.value)))
    {
      hide Ensure, EnsureAll, LineWants, ControlOf;
      ghost var before := structure.lines;
      var controls, areas := structure.controls, structure.areas;
      LineWantsHold(controls, areas, p, items);
      ghost var wants := LineWants(controls, areas, p, items);
      var i := 0;
      assert EnsureAll(before, PrefixOf(wants, 0), draft) == Some(structure.lines) by {
        NothingToDo(before, PrefixOf(wants, 0), draft);
      }
      while i < |items|
        invariant 0 <= i <= |items| && structure.controls == controls && structure.areas == areas
        invariant forall j :: 0 <= j < i ==>
          ControlOf(controls, items[j].control).Some? && Position(areas, AreaKey(p, items[j].phase)).Some?
        invariant wants.Some? ==>
          |wants.value| == |items| && EnsureAll(before, PrefixOf(wants, i), draft) == Some(structure.lines)
        invariant Contents() == old(Contents()).(structure := old(structure).(lines := structure.lines))
      {
        var control, area := ControlOf(controls, items[i].control), Position(areas, AreaKey(p, items[i].phase));
        if control.None? || area.None? {
          return false;
        }
        if wants.Some? {
          EnsureAllStep(before, wants.value, i, draft);
        }
        var lines := Ensure(structure.lines, LineKey(p, control.value), LineValue(area.value, 10 * (i + 1)), draft);
        if lines.None? {
          return false;
        }
        structure := structure.(lines := lines.value);
        i := i + 1;
      }
      assert wants.Some? ==> PrefixOf(wants, i) == wants.value;
      ok := true;
    }

    /** _ensure_pack_structure */
    method EnsurePackStructure(bp: Blueprint, v: Version) returns (ok: bool, p: nat)
      requires WellFormed(structure)
      modifies this
      ensures ok == EnsureStructure(old(structure), bp, v).Some?
      ensures ok ==> EnsureStructure(old(structure), bp, v) == Some((structure, p))
      ensures ok ==> Contents() == old(Contents()).(structure := structure)
    {
      hide Ensure, EnsureAll, ValidPack, Matches, LineWants, AreaWants, Position, Found;
      ok, p := false, 0;
      if !ValidPack(bp, v) {
        return;
      }
      var packs := Ensure(structure.packs, v, bp.name, true);
      if packs.None? || Position(packs.value, v).None? {
        return;
      }
      if EnsurePack(structure, bp, v).Some? {
        EnsurePackHolds(structure, bp, v);
      }
      p := Position(packs.value, v).value;
      var states := if |packs.value| > |structure.packs| then structure.states + [Draft] else structure.states;
      structure := structure.(packs := packs.value, states := states);
      var draft := structure.states[p].Draft?;
      if !draft && !Matches(structure, p, bp) {
        return;
      }
      ok := EnsureAreas(p, bp.phases, draft);
      if !ok {
        return;
      }
      ok := EnsureLines(p, bp.items, draft);
      if !ok {
        return;
      }
      if draft {
        structure := structure.(states := structure.states[p := Active]);
      }
    }

    /** _ensure_activity, then the scope writes of its caller. */
    method EnsureActivity(task: Task) returns (ok: bool)
      requires |scopes| == |activities|
      modifies this
      ensures |scopes| == |activities|
      ensures ok == old(RunTask(Contents(), task)).Some?
      ensures Contents() == if ok then old(RunTask(Contents(), task)).value else old(Contents())
    {
      hide Aligned, ValueOf, Ensure, Position;
      if !Aligned(structure, task) {
        return false;
      }
      var ensured := Ensure(activities, task.key, ValueOf(structure, task), true);
      if ensured.None? {
        return false;
      }
      assert RunTask(Contents(), task).Some?;
      ghost var grown := if |ensured.value| > |activities| then scopes + [{}] else scopes;
      if |ensured.value| > |activities| {
        scopes := scopes + [{}];
      }
      activities := ensured.value;
      var i := 0;
      assert SetScopes(activities, grown, task.scopes[..0]) == scopes;
      while i < |task.scopes|
        invariant 0 <= i <= |task.scopes| && |grown| == |activities|
        invariant structure == old(structure) && activities == ensured.value
        invariant SetScopes(activities, grown, task.scopes[..i]) == scopes
      {
        var (k, packs) := task.scopes[i];
        assert task.scopes[..i + 1][..i] == task.scopes[..i];
        var at := Position(activities, k);
        if at.Some? {
          scopes := scopes[at.value := packs];
        }
        i := i + 1;
      }
      assert task.scopes[..i] == task.scopes;
      ok := true;
    }

    /** The loops over activities; an error rolls back what they did. */
    method EnsureActivities(tasks: seq<Task>) returns (ok: bool)
      requires |scopes| == |activities|
      modifies this
      ensures ok == old(RunTasks(Contents(), tasks)).Some?
      ensures Contents() == if ok then old(RunTasks(Contents(), tasks)).value else old(Contents())
    {
      hide RunTask;
      var before := Contents();
      var i := 0;
      assert RunTasks(before, tasks[..0]) == Some(before);
      while i < |tasks|
        invariant 0 <= i <= |tasks| && |scopes| == |activities|
        invariant RunTasks(before, tasks[..i]) == Some(Contents())
      {
        TasksStep(before, tasks, i);
        ok := EnsureActivity(tasks[i]);
        if !ok {
          Restore(before);
          return;
        }
        i := i + 1;
      }
      assert tasks[..i] == tasks;
      ok := true;
    }

    /** seed_iso9001_initial_implementation: all of it, or nothing. */
    method SeedImplementation(inputs: Inputs) returns (ok: bool)
      requires StoreWellFormed(Contents())
      modifies this
      ensures ok == old(Seed(Contents(), inputs)).Some?
      ensures Contents() == if ok then old(Seed(Contents(), inputs)).value else old(Contents())
    {
      hide EnsureStructure, WellFormed, RunTasks, InitialTasks, AmendmentTasks, SetScopes, RevisedScopes, Valid;
      var before := Contents();
      if !Valid(inputs) {
        return false;
      }
      var p1, p2;
      ok, p1 := EnsurePackStructure(inputs.initial, V10);
      if ok {
        StructureWellFormed(before.structure, inputs.initial, V10);
        ok := EnsureActivities(InitialTasks(inputs, p1));
      }
      if !ok {
        Restore(before);
        return;
      }
      ghost var a := Contents();
      assert SeedFirst(before, inputs) == Some((a, p1));
      ok, p2 := EnsurePackStructure(inputs.amendment, V11);
      if ok {
        StructureWellFormed(a.structure, inputs.amendment, V11);
        ok := EnsureActivities(AmendmentTasks(inputs, p1, p2));
      }
      if !ok {
        Restore(before);
        return;
      }
      NarrowRevised(p1);
    }

    /** The last loop: the revised activities of the first pack. */
    method NarrowRevised(p1: nat)
      requires |scopes| == |activities|
      modifies this`scopes
      ensures scopes == SetScopes(activities, old(scopes), RevisedScopes(p1, |REVISED|))
    {
      hide Position;
      ghost var before := scopes;
      ghost var sets := RevisedScopes(p1, |REVISED|);
      var i := 0;
      assert SetScopes(activities, before, sets[..0]) == scopes;
      while i < |REVISED|
        invariant 0 <= i <= |REVISED| && |scopes| == |activities| == |before|
        invariant SetScopes(activities, before, sets[..i]) == scopes
      {
        assert sets[..i + 1][..i] == sets[..i] && sets[i] == (Base(REVISED[i]), {p1});
        var at := Position(activities, Base(REVISED[i]));
        if at.Some? {
          scopes := scopes[at.value := {p1}];
        }
        i := i + 1;
      }
      assert sets[..i] == sets;
    }
  }

  function PrefixOf(wants: Option<seq<(LineKey, LineValue)>>, i: nat): seq<(LineKey, LineValue)> {
    if wants.Some? && i <= |wants.value| then wants.value[..i] else []
  }

  lemma TasksStep(s: Store, tasks: seq<Task>, i: nat)
    requires |s.scopes| == |s.activities| && i < |tasks| && RunTasks(s, tasks[..i]).Some?
    ensures var turn := RunTask(RunTasks(s, tasks[..i]).value, tasks[i]);
      && RunTasks(s, tasks[..i + 1]) == turn
      && (turn.None? ==> RunTasks(s, tasks).None?)
  {
    hide RunTask;
    assert tasks[..i + 1][..i] == tasks[..i];
    if RunTasks(s, tasks[..i + 1]).None? {
      TasksFail(s, tasks, i + 1);
    }
  }

  lemma {:induction false} TasksFail(s: Store, tasks: seq<Task>, i: nat)
    requires |s.scopes| == |s.activities| && i <= |tasks| && RunTasks(s, tasks[..i]).None?
    ensures RunTasks(s, tasks).None?
    decreases |tasks|
  {
    hide RunTask;
    if i < |tasks| {
      assert tasks[..|tasks| - 1][..i] == tasks[..i];
      TasksFail(s, tasks[..|tasks| - 1], i);
    } else {
      assert tasks[..i] == tasks;
    }
  }
}
