/** Seeding converges: whatever the scopes were, they end up right, and another run changes nothing. */
module PackConvergence {
  import opened Common
  import opened Definitions
  import opened PackSeeding

  // ----- a settled pack -----

  /** The pack, its areas and its lines are all there, as the blueprint defines them. */
  ghost predicate Settled(st: Structure, p: nat, bp: Blueprint, v: Version) {
    && WellFormed(st) && p < |st.packs| && Position(st.packs, v) == Some(p)
    && Present(st.packs, v, bp.name) && !st.states[p].Draft?
    && (forall w :: w in AreaWants(p, bp.phases) ==> Present(st.areas, w.0, w.1))
    && LineWants(st.controls, st.areas, p, bp.items).Some?
    && (forall w :: w in LineWants(st.controls, st.areas, p, bp.items).value ==> Present(st.lines, w.0, w.1))
  }

  /** Records that were found keep their definition and their number. */
  ghost predicate KeptRows<K(!new), V>(before: seq<Row<K, V>>, after: seq<Row<K, V>>) {
    && before <= after
    && forall k: K :: Found(before, k) != [] ==>
      Found(after, k) == Found(before, k) && Position(after, k) == Position(before, k)
  }

  ghost predicate KeptStructure(before: Structure, after: Structure) {
    && after.controls == before.controls
    && KeptRows(before.areas, after.areas) && KeptRows(before.lines, after.lines)
    && (forall v: Version :: Found(before.packs, v) != [] ==>
          Found(after.packs, v) == Found(before.packs, v) && Position(after.packs, v) == Position(before.packs, v))
  }

  lemma KeptByEnsureAll<K(!new), V>(rows: seq<Row<K, V>>, wants: seq<(K, V)>, create: bool)
    requires EnsureAll(rows, wants, create).Some?
    ensures KeptRows(rows, EnsureAll(rows, wants, create).value)
  {
    AllPresent(rows, wants, create);
    OnlyWantedAdded(rows, wants, create);
    hide EnsureAll, Found, Position, Present;
  }

  lemma ContentsSettle(st: Structure, p: nat, bp: Blueprint, v: Version)
    requires WellFormed(st) && p < |st.packs| && Position(st.packs, v) == Some(p) && Present(st.packs, v, bp.name)
    requires EnsureContents(st, p, bp).Some?
    ensures var t := EnsureContents(st, p, bp).value;
      && Settled(t, p, bp, v) && t.controls == st.controls && t.packs == st.packs
      && KeptRows(st.areas, t.areas) && KeptRows(st.lines, t.lines)
      && |t.states| == |st.states| && (forall q :: 0 <= q < |st.states| && q != p ==> t.states[q] == st.states[q])
  {
    var draft := st.states[p].Draft?;
    var areas := EnsureAll(st.areas, AreaWants(p, bp.phases), draft).value;
    var wants := LineWants(st.controls, areas, p, bp.items).value;
    EnsureContentsWellFormed(st, p, bp);
    hide EnsureAll, LineWants, Matches, Found, Position, Present, WellFormed;
    AllPresent(st.areas, AreaWants(p, bp.phases), draft);
    AllPresent(st.lines, wants, draft);
    KeptByEnsureAll(st.areas, AreaWants(p, bp.phases), draft);
    KeptByEnsureAll(st.lines, wants, draft);
  }

  /** An ensured pack is settled, and what was there before is kept. */
  lemma StructureSettles(st: Structure, bp: Blueprint, v: Version)
    requires WellFormed(st) && EnsureStructure(st, bp, v).Some?
    ensures var (t, p) := EnsureStructure(st, bp, v).value;
      && Settled(t, p, bp, v) && KeptStructure(st, t)
      && |st.packs| <= |t.packs|
      && (forall q :: 0 <= q < |st.packs| && q != p ==> t.states[q] == st.states[q])
  {
    hide EnsurePack, EnsureContents, ValidPack, Settled, KeptRows, Found, Position, Present;
    EnsurePackHolds(st, bp, v);
    var (packed, p) := EnsurePack(st, bp, v).value;
    EnsureContentsWellFormed(packed, p, bp);
    ContentsSettle(packed, p, bp, v);
    forall q: Version
      ensures Found(st.packs, q) != [] ==> Position(st.packs, q).Some?
    {
      PositionOfFound(st.packs, q);
    }
  }

  lemma {:induction false} LineWantsKept(controls: seq<Row<string, string>>, before: seq<Row<AreaKey, string>>,
                                         after: seq<Row<AreaKey, string>>,
                                         p: nat, items: seq<Item>)
    requires KeptRows(before, after) && LineWants(controls, before, p, items).Some?
    ensures LineWants(controls, after, p, items) == LineWants(controls, before, p, items)
  {
    hide ControlOf, Position, Found;
    if items != [] {
      var key := AreaKey(p, items[|items| - 1].phase);
      LineWantsKept(controls, before, after, p, items[..|items| - 1]);
      PositionOfFound(before, key);
    }
  }

  lemma PresentKept<K(!new), V>(before: seq<Row<K, V>>, after: seq<Row<K, V>>, k: K, v: V)
    requires KeptRows(before, after) && Present(before, k, v)
    ensures Present(after, k, v)
  {
    hide Found, Position;
  }

  /** Ensuring another pack leaves a settled one settled. */
  lemma SettledKept(before: Structure, after: Structure, p: nat, bp: Blueprint, v: Version)
    requires Settled(before, p, bp, v) && KeptStructure(before, after) && WellFormed(after)
    requires p < |after.packs| && after.states[p] == before.states[p]
    ensures Settled(after, p, bp, v)
  {
    LineWantsKept(before.controls, before.areas, after.areas, p, bp.items);
    hide LineWants, AreaWants, Found, Position, KeptRows, WellFormed;
    forall w | w in AreaWants(p, bp.phases)
      ensures Present(after.areas, w.0, w.1)
    {
      PresentKept(before.areas, after.areas, w.0, w.1);
    }
    forall w | w in LineWants(before.controls, before.areas, p, bp.items).value
      ensures Present(after.lines, w.0, w.1)
    {
      PresentKept(before.lines, after.lines, w.0, w.1);
    }
    PositionOfFound(before.packs, v);
  }

  /** Ensuring a settled pack again changes nothing - or fails, when it no longer matches the blueprint. */
  lemma SettledAgain(st: Structure, p: nat, bp: Blueprint, v: Version)
    requires Settled(st, p, bp, v) && ValidPack(bp, v)
    ensures EnsureStructure(st, bp, v) == if Matches(st, p, bp) then Some((st, p)) else None
  {
    PackAgain(st, p, bp, v);
    ContentsAgain(st, p, bp, v);
    hide EnsurePack, EnsureContents, Settled, ValidPack, Matches;
  }

  lemma PackAgain(st: Structure, p: nat, bp: Blueprint, v: Version)
    requires Settled(st, p, bp, v)
    ensures EnsurePack(st, bp, v) == Some((st, p))
  {
    hide LineWants, AreaWants, Found, Position;
  }

  lemma ContentsAgain(st: Structure, p: nat, bp: Blueprint, v: Version)
    requires Settled(st, p, bp, v)
    ensures EnsureContents(st, p, bp) == if Matches(st, p, bp) then Some(st) else None
  {
    hide EnsureAll, LineWants, AreaWants, Found, Position, Matches, Present;
    NothingToDo(st.areas, AreaWants(p, bp.phases), false);
    NothingToDo(st.lines, LineWants(st.controls, st.areas, p, bp.items).value, false);
  }

  // ----- tasks -----

  /** A task gives scopes to its own activity only. */
  predicate OwnScopes(task: Task) {
    task.scopes != [] && forall x :: x in task.scopes ==> x.0 == task.key
  }

  function FinalScope(task: Task): set<nat>
    requires OwnScopes(task)
  {
    task.scopes[|task.scopes| - 1].1
  }

  /** The task's activity is there, as defined. */
  predicate Done(s: Store, task: Task) {
    Aligned(s.structure, task) && Present(s.activities, task.key, ValueOf(s.structure, task))
  }

  lemma {:induction false} ScopesOfOne(activities: seq<Row<Key, ActivityValue>>, scopes: seq<set<nat>>,
                                       sets: seq<(Key, set<nat>)>, k: Key)
    requires |scopes| == |activities| && sets != [] && (forall x :: x in sets ==> x.0 == k)
    requires Position(activities, k).Some?
    ensures SetScopes(activities, scopes, sets) == scopes[Position(activities, k).value := sets[|sets| - 1].1]
  {
    hide Position;
    if |sets| > 1 {
      ScopesOfOne(activities, scopes, sets[..|sets| - 1], k);
    } else {
      assert SetScopes(activities, scopes, sets[..0]) == scopes;
    }
  }

  lemma OnlyOne(activities: seq<Row<Key, ActivityValue>>, k: Key, i: nat)
    requires |Found(activities, k)| == 1 && i < |activities|
    ensures activities[i].key == k <==> Position(activities, k) == Some(i)
  {
    if activities[i].key == k {
      PositionIsFirst(activities, k, i);
    }
  }

  lemma EnsureKeepsRows<K(!new), V>(rows: seq<Row<K, V>>, k: K, v: V)
    requires Ensure(rows, k, v, true).Some?
    ensures var after := Ensure(rows, k, v, true).value;
      && KeptRows(rows, after) && Present(after, k, v) && Position(after, k).Some?
      && (Present(rows, k, v) ==> after == rows)
      && (forall a :: |rows| <= a < |after| ==> after[a].key == k)
  {
    var after := Ensure(rows, k, v, true).value;
    forall q: K
      ensures Found(rows, q) != [] ==> Found(after, q) == Found(rows, q) && Position(after, q) == Position(rows, q)
    {
      EnsureKeeps(rows, k, v, true, q);
      PositionOfFound(rows, q);
    }
    EnsureKeeps(rows, k, v, true, k);
    PositionOfFound(after, k);
    hide Found, Position;
  }

  /** The scopes of one task, by activity. */
  lemma ScopesByIndex(activities: seq<Row<Key, ActivityValue>>, scopes: seq<set<nat>>, task: Task)
    requires |scopes| == |activities| && OwnScopes(task) && |Found(activities, task.key)| == 1
    ensures forall a :: 0 <= a < |activities| ==>
      SetScopes(activities, scopes, task.scopes)[a] == if activities[a].key == task.key then FinalScope(task)
                                                       else scopes[a]
  {
    PositionOfFound(activities, task.key);
    ScopesOfOne(activities, scopes, task.scopes, task.key);
    hide Found, Position, SetScopes;
    forall a | 0 <= a < |activities|
      ensures SetScopes(activities, scopes, task.scopes)[a] == if activities[a].key == task.key then FinalScope(task)
                                                               else scopes[a]
    {
      OnlyOne(activities, task.key, a);
    }
  }

  /** What one task does: its activity exists once and has the last scope; nothing else changes. */
  lemma TaskEffect(s: Store, task: Task)
    requires |s.scopes| == |s.activities| && RunTask(s, task).Some? && OwnScopes(task)
    ensures var t := RunTask(s, task).value;
      && KeptRows(s.activities, t.activities) && Done(t, task)
      && (Done(s, task) ==> t.activities == s.activities)
      && (forall a :: |s.activities| <= a < |t.activities| ==> t.activities[a].key == task.key)
      && (forall a :: 0 <= a < |t.activities| && t.activities[a].key == task.key ==> t.scopes[a] == FinalScope(task))
      && (forall a :: 0 <= a < |t.activities| && t.activities[a].key != task.key ==> t.scopes[a] == s.scopes[a])
  {
    var t := RunTask(s, task).value;
    EnsureKeepsRows(s.activities, task.key, ValueOf(s.structure, task));
    var grown := if |t.activities| > |s.activities| then s.scopes + [{}] else s.scopes;
    ScopesByIndex(t.activities, grown, task);
    hide Found, Position, Aligned, ValueOf, SetScopes, KeptRows, OwnScopes, FinalScope;
  }

  /** Definedness and activities do not depend on the scopes. */
  lemma TaskIgnoresScopes(s: Store, task: Task, scopes: seq<set<nat>>)
    requires |s.scopes| == |s.activities| == |scopes|
    ensures RunTask(s.(scopes := scopes), task).Some? <==> RunTask(s, task).Some?
    ensures RunTask(s, task).Some? ==>
      RunTask(s.(scopes := scopes), task).value.activities == RunTask(s, task).value.activities
  {
    hide Found, Position, Aligned, ValueOf, SetScopes;
  }

  /** The scope a list of tasks leaves an activity with. */
  function ScopeBy(tasks: seq<Task>, k: Key): Option<set<nat>>
    requires forall x :: x in tasks ==> OwnScopes(x)
  {
    if tasks == [] then None
    else
      var last := tasks[|tasks| - 1];
      if last.key == k then Some(FinalScope(last)) else ScopeBy(tasks[..|tasks| - 1], k)
  }

  function Chosen(new_: Option<set<nat>>, old_: set<nat>): set<nat> {
    if new_.Some? then new_.value else old_
  }

  /** The scopes after an assignment by key: the chosen ones, and the earlier ones elsewhere. */
  ghost predicate Rescoped(s: Store, t: Store, by_: Key -> Option<set<nat>>) {
    && |s.scopes| == |s.activities| <= |t.activities| == |t.scopes|
    && (forall a :: |s.activities| <= a < |t.activities| ==> by_(t.activities[a].key).Some?)
    && (forall a :: 0 <= a < |t.activities| ==>
          t.scopes[a] == if a < |s.scopes| then Chosen(by_(t.activities[a].key), s.scopes[a])
                         else by_(t.activities[a].key).value)
  }

  lemma KeptTransitive<K(!new), V>(a: seq<Row<K, V>>, b: seq<Row<K, V>>, c: seq<Row<K, V>>)
    requires KeptRows(a, b) && KeptRows(b, c)
    ensures KeptRows(a, c)
  {
    hide Found, Position;
  }

  lemma DoneKept(s: Store, t: Store, task: Task)
    requires Done(s, task) && s.structure == t.structure && KeptRows(s.activities, t.activities)
    ensures Done(t, task)
  {
    PresentKept(s.activities, t.activities, task.key, ValueOf(s.structure, task));
    hide Aligned, ValueOf, Present, KeptRows;
  }

  lemma {:induction false} TasksEffect(s: Store, tasks: seq<Task>)
    requires |s.scopes| == |s.activities| && RunTasks(s, tasks).Some? && forall x :: x in tasks ==> OwnScopes(x)
    ensures var t := RunTasks(s, tasks).value;
      && KeptRows(s.activities, t.activities) && (forall x :: x in tasks ==> Done(t, x))
      && ((forall x :: x in tasks ==> Done(s, x)) ==> t.activities == s.activities)
      && Rescoped(s, t, k => ScopeBy(tasks, k))
    decreases |tasks|
  {
    hide RunTask, Done, OwnScopes, FinalScope, KeptRows;
    if tasks == [] {
      assert KeptRows(s.activities, s.activities) by {
        KeptItself(s.activities);
      }
    } else {
      var fewer, last := tasks[..|tasks| - 1], tasks[|tasks| - 1];
      TasksEffect(s, fewer);
      var m, t := RunTasks(s, fewer).value, RunTasks(s, tasks).value;
      TaskEffect(m, last);
      KeptTransitive(s.activities, m.activities, t.activities);
      assert tasks == fewer + [last];
      forall x | x in tasks
        ensures Done(t, x)
      {
        if x != last {
          DoneKept(m, t, x);
        }
      }
      StillPrefix(m.activities, t.activities);
      if forall x :: x in tasks ==> Done(s, x) {
        SameActivitiesDone(s, m, last);
      }
    }
  }

  lemma SameActivitiesDone(s: Store, m: Store, task: Task)
    requires Done(s, task) && m.activities == s.activities && m.structure == s.structure
    ensures Done(m, task)
  {
    hide Aligned, ValueOf, Present;
  }

  lemma KeptItself<K(!new), V>(rows: seq<Row<K, V>>)
    ensures KeptRows(rows, rows)
  {
  }

  lemma StillPrefix<K(!new), V>(before: seq<Row<K, V>>, after: seq<Row<K, V>>)
    requires KeptRows(before, after)
    ensures |before| <= |after| && forall a :: 0 <= a < |before| ==> after[a] == before[a]
  {
  }

  /** When everything is there already the tasks succeed. */
  lemma {:induction false} TasksAgain(s: Store, tasks: seq<Task>)
    requires |s.scopes| == |s.activities| && forall x :: x in tasks ==> OwnScopes(x) && Done(s, x)
    ensures RunTasks(s, tasks).Some? && RunTasks(s, tasks).value.activities == s.activities
    decreases |tasks|
  {
    hide RunTask, OwnScopes, Done;
    if tasks != [] {
      var last := tasks[|tasks| - 1];
      TasksAgain(s, tasks[..|tasks| - 1]);
      var m := RunTasks(s, tasks[..|tasks| - 1]).value;
      SameActivitiesDone(s, m, last);
      DoneRuns(m, last);
    }
  }

  lemma DoneRuns(s: Store, task: Task)
    requires |s.scopes| == |s.activities| && Done(s, task)
    ensures RunTask(s, task).Some? && RunTask(s, task).value.activities == s.activities
  {
    hide Found, Aligned, ValueOf, SetScopes;
  }

  lemma {:induction false} TasksIgnoreScopes(s: Store, tasks: seq<Task>, scopes: seq<set<nat>>)
    requires |s.scopes| == |s.activities| == |scopes|
    ensures RunTasks(s.(scopes := scopes), tasks).Some? <==> RunTasks(s, tasks).Some?
    ensures RunTasks(s, tasks).Some? ==>
      RunTasks(s.(scopes := scopes), tasks).value.activities == RunTasks(s, tasks).value.activities
    decreases |tasks|
  {
    hide RunTask;
    if tasks != [] {
      var fewer, last := tasks[..|tasks| - 1], tasks[|tasks| - 1];
      TasksIgnoreScopes(s, fewer, scopes);
      if RunTasks(s, fewer).Some? {
        var m, n := RunTasks(s, fewer).value, RunTasks(s.(scopes := scopes), fewer).value;
        assert n == m.(scopes := n.scopes);
        TaskIgnoresScopes(m, last, n.scopes);
      }
    }
  }

  // ----- which scopes the passes give -----

  predicate DistinctKeys(tasks: seq<Task>) {
    forall i, j :: 0 <= i < j < |tasks| ==> tasks[i].key != tasks[j].key
  }

  lemma {:induction false} ScopeOfTask(tasks: seq<Task>, i: nat)
    requires (forall x :: x in tasks ==> OwnScopes(x)) && DistinctKeys(tasks) && i < |tasks|
    ensures ScopeBy(tasks, tasks[i].key) == Some(FinalScope(tasks[i]))
    decreases |tasks|
  {
    hide OwnScopes, FinalScope;
    var n := |tasks| - 1;
    if i < n {
      assert tasks[i].key != tasks[n].key;
      ScopeOfTask(tasks[..n], i);
    }
  }

  lemma {:induction false} ScopeOfNone(tasks: seq<Task>, k: Key)
    requires (forall x :: x in tasks ==> OwnScopes(x)) && forall x :: x in tasks ==> x.key != k
    ensures ScopeBy(tasks, k) == None
  {
    hide OwnScopes, FinalScope;
    if tasks != [] {
      ScopeOfNone(tasks[..|tasks| - 1], k);
    }
  }

  lemma InitialOwn(inputs: Inputs, p1: nat)
    ensures forall x :: x in InitialTasks(inputs, p1) ==> OwnScopes(x) && x.key.Base? && 1 <= x.key.n <= POSITIONS
    ensures DistinctKeys(InitialTasks(inputs, p1))
  {
    hide ItemOf, ContentOf;
  }

  lemma InitialScope(inputs: Inputs, p1: nat, k: Key)
    ensures forall x :: x in InitialTasks(inputs, p1) ==> OwnScopes(x)
    ensures ScopeBy(InitialTasks(inputs, p1), k) == if k.Base? && 1 <= k.n <= POSITIONS then Some({p1}) else None
  {
    InitialOwn(inputs, p1);
    var tasks := InitialTasks(inputs, p1);
    if k.Base? && 1 <= k.n <= POSITIONS {
      assert tasks[k.n - 1] == InitialTask(inputs, p1, k.n);
      ScopeOfTask(tasks, k.n - 1);
      assert FinalScope(tasks[k.n - 1]) == {p1};
    } else {
      hide OwnScopes;
      ScopeOfNone(tasks, k);
    }
  }

  lemma RevisedInRange(n: nat)
    requires IsRevised(n)
    ensures 1 <= n <= POSITIONS
  {
    assert REVISED == [1, 2, 8, 10, 11, 23, 37];
  }

  lemma AmendmentOwn(inputs: Inputs, p1: nat, p2: nat)
    requires ValidAmendment(inputs.amendment, inputs.initial)
    ensures forall x :: x in AmendmentTasks(inputs, p1, p2) ==> OwnScopes(x)
    ensures |AmendmentTasks(inputs, p1, p2)| == POSITIONS
    ensures forall i :: 0 <= i < POSITIONS ==>
      var task := AmendmentTasks(inputs, p1, p2)[i];
      && task.key == AmendmentKey(i + 1)
      && OwnScopes(task) && FinalScope(task) == if IsRevised(i + 1) then {p2} else {p1, p2}
    ensures DistinctKeys(AmendmentTasks(inputs, p1, p2))
  {
    hide ContentOf, IsRevised;
    var tasks, items := AmendmentTasks(inputs, p1, p2), inputs.amendment.items;
    forall i | 0 <= i < POSITIONS
      ensures tasks[i].key == AmendmentKey(i + 1)
      ensures OwnScopes(tasks[i]) && FinalScope(tasks[i]) == if IsRevised(i + 1) then {p2} else {p1, p2}
    {
      assert tasks[i] == AmendmentTask(inputs, p1, p2, items[i]);
    }
  }

  lemma AmendmentScope(inputs: Inputs, p1: nat, p2: nat, k: Key)
    requires ValidAmendment(inputs.amendment, inputs.initial)
    ensures forall x :: x in AmendmentTasks(inputs, p1, p2) ==> OwnScopes(x)
    ensures ScopeBy(AmendmentTasks(inputs, p1, p2), k)
            == if k.Base? && 1 <= k.n <= POSITIONS && !IsRevised(k.n) then Some({p1, p2})
               else if k.Revised? && IsRevised(k.n) then Some({p2})
               else None
  {
    AmendmentOwn(inputs, p1, p2);
    var tasks := AmendmentTasks(inputs, p1, p2);
    hide OwnScopes, ValidAmendment, AmendmentTasks, IsRevised, FinalScope, DistinctKeys;
    if !k.OtherKey? && 1 <= k.n <= POSITIONS && k == AmendmentKey(k.n) {
      ScopeOfTask(tasks, k.n - 1);
    } else {
      if k.Revised? && IsRevised(k.n) {
        RevisedInRange(k.n);
      }
      NoAmendmentTask(tasks, k);
    }
  }

  lemma NoAmendmentTask(tasks: seq<Task>, k: Key)
    requires |tasks| == POSITIONS && (forall x :: x in tasks ==> OwnScopes(x))
    requires forall i :: 0 <= i < POSITIONS ==> tasks[i].key == AmendmentKey(i + 1)
    requires k.OtherKey? || !(1 <= k.n <= POSITIONS) || k != AmendmentKey(k.n)
    ensures ScopeBy(tasks, k) == None
  {
    hide OwnScopes, IsRevised, ScopeBy;
    forall x | x in tasks
      ensures x.key != k
    {
      var i :| 0 <= i < |tasks| && tasks[i] == x;
      assert x.key == AmendmentKey(i + 1);
    }
    ScopeOfNone(tasks, k);
  }

  lemma {:induction false} ScopesTo(activities: seq<Row<Key, ActivityValue>>, scopes: seq<set<nat>>, p1: nat, n: nat)
    requires |scopes| == |activities| && n <= |REVISED|
    requires forall r :: r in REVISED ==> |Found(activities, Base(r))| == 1
    ensures forall a :: 0 <= a < |activities| ==>
      SetScopes(activities, scopes, RevisedScopes(p1, n))[a]
      == if activities[a].key.Base? && activities[a].key.n in REVISED[..n] then {p1} else scopes[a]
  {
    hide Found, Position;
    if n > 0 {
      ScopesTo(activities, scopes, p1, n - 1);
      var sets, k := RevisedScopes(p1, n), Base(REVISED[n - 1]);
      assert sets[..n - 1] == RevisedScopes(p1, n - 1);
      assert REVISED[..n] == REVISED[..n - 1] + [REVISED[n - 1]];
      assert REVISED[n - 1] in REVISED;
      PositionOfFound(activities, k);
      forall a | 0 <= a < |activities|
        ensures activities[a].key == k <==> Position(activities, k) == Some(a)
      {
        OnlyOne(activities, k, a);
      }
      hide RevisedScopes;
    }
  }

  /** Where each kind of activity belongs: shared to both packs, revised to the first, its replacement to the second. */
  function Target(k: Key, p1: nat, p2: nat): Option<set<nat>> {
    if k.Base? && 1 <= k.n <= POSITIONS then Some(if IsRevised(k.n) then {p1} else {p1, p2})
    else if k.Revised? && IsRevised(k.n) then Some({p2})
    else None
  }
}
