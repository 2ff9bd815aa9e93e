/** The main results about seeding: where every activity ends up, and what a second run does. */
module PackReruns {
  import opened Common
  import opened Definitions
  import opened PackSeeding
  import opened PackConvergence
  import Decimal

  /** The stages of a successful seed. */
  datatype Stages = Stages(
    first: Structure, p1: nat, initial: Store, second: Structure, p2: nat, amended: Store)

  ghost predicate StagesOf(s: Store, inputs: Inputs, g: Stages, t: Store)
    requires StoreWellFormed(s)
  {
    && Valid(inputs)
    && EnsureStructure(s.structure, inputs.initial, V10) == Some((g.first, g.p1))
    && WellFormed(g.first) && RunOn(s, g.first, InitialTasks(inputs, g.p1)) == Some(g.initial)
    && StoreWellFormed(g.initial) && g.initial.structure == g.first
    && EnsureStructure(g.first, inputs.amendment, V11) == Some((g.second, g.p2))
    && WellFormed(g.second) && RunOn(g.initial, g.second, AmendmentTasks(inputs, g.p1, g.p2)) == Some(g.amended)
    && StoreWellFormed(g.amended) && g.amended.structure == g.second
    && t == g.amended.(scopes := SetScopes(g.amended.activities, g.amended.scopes, RevisedScopes(g.p1, |REVISED|)))
  }

  lemma SeedStages(s: Store, inputs: Inputs) returns (g: Stages)
    requires StoreWellFormed(s) && Seed(s, inputs).Some?
    ensures StagesOf(s, inputs, g, Seed(s, inputs).value)
  {
    hide EnsureStructure, WellFormed, RunOn, InitialTasks, AmendmentTasks, SetScopes, RevisedScopes, Valid;
    var (a, p1) := SeedFirst(s, inputs).value;
    var first := EnsureStructure(s.structure, inputs.initial, V10).value.0;
    StructureWellFormed(s.structure, inputs.initial, V10);
    var (second, p2) := EnsureStructure(a.structure, inputs.amendment, V11).value;
    StructureWellFormed(a.structure, inputs.amendment, V11);
    g := Stages(first, p1, a, second, p2, RunOn(a, second, AmendmentTasks(inputs, p1, p2)).value);
  }

  /** And conversely: stages make a successful seed. */
  lemma StagesSeed(s: Store, inputs: Inputs, g: Stages, t: Store)
    requires StoreWellFormed(s) && StagesOf(s, inputs, g, t)
    ensures Seed(s, inputs) == Some(t)
  {
    hide EnsureStructure, WellFormed, RunOn, InitialTasks, AmendmentTasks, SetScopes, RevisedScopes, Valid;
  }

  /** After the second pack's structure the first pack is settled still. */
  lemma BothSettled(s: Store, inputs: Inputs, g: Stages, t: Store)
    requires StoreWellFormed(s) && StagesOf(s, inputs, g, t)
    ensures Settled(g.second, g.p1, inputs.initial, V10) && Settled(g.second, g.p2, inputs.amendment, V11)
    ensures KeptStructure(g.first, g.second) && g.p1 != g.p2
  {
    hide EnsureStructure, RunOn, InitialTasks, AmendmentTasks, SetScopes, RevisedScopes, Valid, KeptStructure;
    StructureSettles(s.structure, inputs.initial, V10);
    StructureSettles(g.first, inputs.amendment, V11);
    DifferentPacks(g.first, g.second, g.p1, g.p2, inputs.initial);
    hide Settled;
    SettledKept(g.first, g.second, g.p1, inputs.initial, V10);
  }

  lemma DifferentPacks(first: Structure, second: Structure, p1: nat, p2: nat, bp: Blueprint)
    requires Settled(first, p1, bp, V10) && KeptStructure(first, second)
    requires p2 < |second.packs| && Position(second.packs, V11) == Some(p2)
    ensures p1 != p2 && p1 < |first.packs| && Position(second.packs, V10) == Some(p1)
  {
    PositionOfFound(first.packs, V10);
    hide AreaWants, LineWants, Found, Present, KeptRows;
  }

  // ----- activities and scopes -----

  lemma AlignedKept(before: Structure, after: Structure, task: Task)
    requires Aligned(before, task) && KeptStructure(before, after)
    ensures Aligned(after, task) && ValueOf(after, task) == ValueOf(before, task)
  {
    var control := ControlOf(before.controls, task.control).value;
    PositionOfFound(before.lines, LineKey(task.pack, control));
    hide Found, Position, ControlOf;
  }

  lemma DoneLater(a: Store, b: Store, task: Task)
    requires Done(a, task) && KeptStructure(a.structure, b.structure) && KeptRows(a.activities, b.activities)
    ensures Done(b, task)
  {
    AlignedKept(a.structure, b.structure, task);
    PresentKept(a.activities, b.activities, task.key, ValueOf(a.structure, task));
    hide Aligned, ValueOf, Present, KeptRows, KeptStructure;
  }

  /** Everything the passes wanted is there in the end. */
  ghost predicate AllDone(t: Store, inputs: Inputs, p1: nat, p2: nat) {
    && (forall x :: x in InitialTasks(inputs, p1) ==> Done(t, x))
    && (forall x :: x in AmendmentTasks(inputs, p1, p2) ==> Done(t, x))
  }

  lemma PassEffect(s: Store, structure: Structure, tasks: seq<Task>)
    requires StoreWellFormed(s) && WellFormed(structure) && RunOn(s, structure, tasks).Some?
    requires forall x :: x in tasks ==> OwnScopes(x)
    ensures var t := RunOn(s, structure, tasks).value;
      && KeptRows(s.activities, t.activities) && (forall x :: x in tasks ==> Done(t, x))
      && Rescoped(s, t, k => ScopeBy(tasks, k))
  {
    hide RunTasks, WellFormed, OwnScopes, Done, KeptRows;
    TasksEffect(s.(structure := structure), tasks);
  }

  lemma AllDoneAtEnd(s: Store, inputs: Inputs, g: Stages, t: Store)
    requires StoreWellFormed(s) && StagesOf(s, inputs, g, t)
    ensures AllDone(g.amended, inputs, g.p1, g.p2) && KeptRows(s.activities, g.amended.activities)
  {
    assert ValidAmendment(inputs.amendment, inputs.initial);
    BothSettled(s, inputs, g, t);
    InitialOwn(inputs, g.p1);
    AmendmentOwn(inputs, g.p1, g.p2);
    hide EnsureStructure, RunOn, InitialTasks, AmendmentTasks, SetScopes, RevisedScopes, Valid, KeptStructure, Settled,
         Done, WellFormed, KeptRows, OwnScopes, FinalScope, DistinctKeys, IsRevised, ValidAmendment;
    PassEffect(s, g.first, InitialTasks(inputs, g.p1));
    PassEffect(g.initial, g.second, AmendmentTasks(inputs, g.p1, g.p2));
    forall x | x in InitialTasks(inputs, g.p1)
      ensures Done(g.amended, x)
    {
      DoneLater(g.initial, g.amended, x);
    }
    KeptTransitive(s.activities, g.initial.activities, g.amended.activities);
  }

  /** Each seeded key has one activity. */
  lemma OneActivity(t: Store, inputs: Inputs, p1: nat, p2: nat, k: Key)
    requires ValidAmendment(inputs.amendment, inputs.initial) && AllDone(t, inputs, p1, p2) && Target(k, p1, p2).Some?
    ensures |Found(t.activities, k)| == 1
  {
    if k.Base? {
      var task := InitialTasks(inputs, p1)[k.n - 1];
      assert task == InitialTask(inputs, p1, k.n) && task in InitialTasks(inputs, p1);
      assert Done(t, task);
    } else {
      RevisedInRange(k.n);
      AmendmentOwn(inputs, p1, p2);
      var task := AmendmentTasks(inputs, p1, p2)[k.n - 1];
      assert task in AmendmentTasks(inputs, p1, p2);
      assert Done(t, task);
    }
    hide Found, Aligned, InitialTasks, AmendmentTasks, ValidAmendment;
  }

  lemma RescopedTwice(s: Store, a: Store, b: Store, f: Key -> Option<set<nat>>, g: Key -> Option<set<nat>>)
    requires Rescoped(s, a, f) && Rescoped(a, b, g) && KeptRows(a.activities, b.activities)
    ensures Rescoped(s, b, k => if g(k).Some? then g(k) else f(k))
  {
    StillPrefix(a.activities, b.activities);
    hide KeptRows;
  }

  lemma RescopedSame(s: Store, t: Store, f: Key -> Option<set<nat>>, g: Key -> Option<set<nat>>)
    requires Rescoped(s, t, f) && forall k: Key :: f(k) == g(k)
    ensures Rescoped(s, t, g)
  {
  }

  /** What the three passes give together is each activity's target. */
  lemma PassesGiveTarget(inputs: Inputs, p1: nat, p2: nat, k: Key)
    requires ValidAmendment(inputs.amendment, inputs.initial)
    ensures forall x :: x in InitialTasks(inputs, p1) ==> OwnScopes(x)
    ensures forall x :: x in AmendmentTasks(inputs, p1, p2) ==> OwnScopes(x)
    ensures Target(k, p1, p2)
            == if k.Base? && k.n in REVISED then Some({p1})
               else if ScopeBy(AmendmentTasks(inputs, p1, p2), k).Some? then ScopeBy(AmendmentTasks(inputs, p1, p2), k)
               else ScopeBy(InitialTasks(inputs, p1), k)
  {
    InitialScope(inputs, p1, k);
    AmendmentScope(inputs, p1, p2, k);
    if k.Base? && IsRevised(k.n) {
      RevisedInRange(k.n);
    }
    hide OwnScopes, ScopeBy, ValidAmendment, InitialTasks, AmendmentTasks;
  }

  lemma LastPass(b: Store, p1: nat)
    requires |b.scopes| == |b.activities| && forall r :: r in REVISED ==> |Found(b.activities, Base(r))| == 1
    ensures Rescoped(b, b.(scopes := SetScopes(b.activities, b.scopes, RevisedScopes(p1, |REVISED|))),
                     (k: Key) => if k.Base? && k.n in REVISED then Some({p1}) else None)
  {
    ScopesTo(b.activities, b.scopes, p1, |REVISED|);
    assert REVISED[..|REVISED|] == REVISED;
    hide SetScopes, RevisedScopes, Found;
  }

  lemma RevisedFound(t: Store, inputs: Inputs, p1: nat, p2: nat)
    requires ValidAmendment(inputs.amendment, inputs.initial) && AllDone(t, inputs, p1, p2)
    ensures forall r :: r in REVISED ==> |Found(t.activities, Base(r))| == 1
  {
    forall r | r in REVISED
      ensures |Found(t.activities, Base(r))| == 1
    {
      RevisedInRange(r);
      OneActivity(t, inputs, p1, p2, Base(r));
    }
    hide Found, AllDone, ValidAmendment;
  }

  /** From any stages: every activity ends with its target scope, and with its own earlier scope if it has none. */
  lemma StagesRescope(s: Store, inputs: Inputs, g: Stages, t: Store)
    requires StoreWellFormed(s) && StagesOf(s, inputs, g, t)
    ensures Rescoped(s, t, k => Target(k, g.p1, g.p2))
  {
    assert ValidAmendment(inputs.amendment, inputs.initial);
    AllDoneAtEnd(s, inputs, g, t);
    RevisedFound(g.amended, inputs, g.p1, g.p2);
    forall k: Key
      ensures (forall x :: x in InitialTasks(inputs, g.p1) ==> OwnScopes(x))
      ensures (forall x :: x in AmendmentTasks(inputs, g.p1, g.p2) ==> OwnScopes(x))
      ensures Target(k, g.p1, g.p2)
              == if k.Base? && k.n in REVISED then Some({g.p1})
                 else if ScopeBy(AmendmentTasks(inputs, g.p1, g.p2), k).Some?
                 then ScopeBy(AmendmentTasks(inputs, g.p1, g.p2), k)
                 else ScopeBy(InitialTasks(inputs, g.p1), k)
    {
      PassesGiveTarget(inputs, g.p1, g.p2, k);
    }
    InitialOwn(inputs, g.p1);
    AmendmentOwn(inputs, g.p1, g.p2);
    hide *;
    StagesRescoped(s, inputs, g, t);
  }

  lemma StagesRescoped(s: Store, inputs: Inputs, g: Stages, t: Store)
    requires StoreWellFormed(s) && StagesOf(s, inputs, g, t)
    requires forall r :: r in REVISED ==> |Found(g.amended.activities, Base(r))| == 1
    requires forall x :: x in InitialTasks(inputs, g.p1) ==> OwnScopes(x)
    requires forall x :: x in AmendmentTasks(inputs, g.p1, g.p2) ==> OwnScopes(x)
    requires forall k: Key :: Target(k, g.p1, g.p2)
              == if k.Base? && k.n in REVISED then Some({g.p1})
                 else if ScopeBy(AmendmentTasks(inputs, g.p1, g.p2), k).Some?
                 then ScopeBy(AmendmentTasks(inputs, g.p1, g.p2), k)
                 else ScopeBy(InitialTasks(inputs, g.p1), k)
    ensures Rescoped(s, t, k => Target(k, g.p1, g.p2))
  {
    hide EnsureStructure, RunOn, InitialTasks, AmendmentTasks, SetScopes, RevisedScopes, Valid, WellFormed, Found,
         Target, ScopeBy, OwnScopes, Rescoped, KeptRows, Done;
    var first: Key -> Option<set<nat>> := k => ScopeBy(InitialTasks(inputs, g.p1), k);
    var second: Key -> Option<set<nat>> := k => ScopeBy(AmendmentTasks(inputs, g.p1, g.p2), k);
    var third: Key -> Option<set<nat>> := (k: Key) => if k.Base? && k.n in REVISED then Some({g.p1}) else None;
    PassEffect(s, g.first, InitialTasks(inputs, g.p1));
    PassEffect(g.initial, g.second, AmendmentTasks(inputs, g.p1, g.p2));
    LastPass(g.amended, g.p1);
    RescopedTwice(s, g.initial, g.amended, first, second);
    KeptItself(g.amended.activities);
    var both: Key -> Option<set<nat>> := k => if second(k).Some? then second(k) else first(k);
    RescopedTwice(s, g.amended, t, both, third);
    RescopedSame(s, t, k => if third(k).Some? then third(k) else both(k), k => Target(k, g.p1, g.p2));
  }

  // ----- one activity per position -----

  /** An activity implements a position: the initial one, or its replacement. */
  predicate ForPosition(k: Key, n: nat) { k == Base(n) || (IsRevised(n) && k == Revised(n)) }

  /** Exactly one activity of a position applies to a pack. */
  ghost predicate OneForPosition(t: Store, p: nat, n: nat)
    requires |t.scopes| == |t.activities|
  {
    exists a :: 0 <= a < |t.activities| && ForPosition(t.activities[a].key, n) && p in t.scopes[a]
      && forall b :: 0 <= b < |t.activities| && ForPosition(t.activities[b].key, n) && p in t.scopes[b] ==> b == a
  }

  lemma PositionCovered(t: Store, p1: nat, p2: nat, p: nat, n: nat)
    requires |t.scopes| == |t.activities| && p1 != p2 && (p == p1 || p == p2) && 1 <= n <= POSITIONS
    requires forall k: Key :: Target(k, p1, p2).Some? ==> |Found(t.activities, k)| == 1
    requires forall a :: 0 <= a < |t.activities| && Target(t.activities[a].key, p1, p2).Some? ==>
               t.scopes[a] == Target(t.activities[a].key, p1, p2).value
    ensures OneForPosition(t, p, n)
  {
    var k := if p == p2 then AmendmentKey(n) else Base(n);
    assert Target(k, p1, p2).Some? && p in Target(k, p1, p2).value;
    PositionOfFound(t.activities, k);
    var a := Position(t.activities, k).value;
    forall b | 0 <= b < |t.activities| && ForPosition(t.activities[b].key, n) && p in t.scopes[b]
      ensures b == a
    {
      assert t.activities[b].key == k;
      OnlyOne(t.activities, k, b);
    }
    hide Found, Position, IsRevised;
  }

  /**
   * Seeding converges: whatever the scopes were, afterwards shared activities apply to both packs, revised
   * ones to the first and their replacements to the second, all others to what they applied to before;
   * and each pack has exactly one activity for each position.
   */
  lemma SeedConverges(s: Store, inputs: Inputs) returns (p1: nat, p2: nat)
    requires StoreWellFormed(s) && Seed(s, inputs).Some?
    ensures var t := Seed(s, inputs).value;
      && p1 != p2 && Position(t.structure.packs, V10) == Some(p1) && Position(t.structure.packs, V11) == Some(p2)
      && Settled(t.structure, p1, inputs.initial, V10) && Settled(t.structure, p2, inputs.amendment, V11)
      && KeptRows(s.activities, t.activities)
      && Rescoped(s, t, k => Target(k, p1, p2))
      && forall n :: 1 <= n <= POSITIONS ==> OneForPosition(t, p1, n) && OneForPosition(t, p2, n)
  {
    var g := SeedStages(s, inputs);
    var t := Seed(s, inputs).value;
    BothSettled(s, inputs, g, t);
    AllDoneAtEnd(s, inputs, g, t);
    StagesRescope(s, inputs, g, t);
    p1, p2 := g.p1, g.p2;
    assert ValidAmendment(inputs.amendment, inputs.initial);
    assert Position(t.structure.packs, V10) == Some(p1) && Position(t.structure.packs, V11) == Some(p2);
    hide Seed, Settled, KeptRows, Found, Position, ValidAmendment, AllDone, Valid, EnsureStructure, RunOn, SetScopes,
         InitialTasks, AmendmentTasks, RevisedScopes, WellFormed, Target, Rescoped, OneForPosition;
    forall k: Key | Target(k, p1, p2).Some?
      ensures |Found(t.activities, k)| == 1
    {
      OneActivity(g.amended, inputs, p1, p2, k);
    }
    EveryPositionCovered(s, t, p1, p2);
  }

  lemma EveryPositionCovered(s: Store, t: Store, p1: nat, p2: nat)
    requires p1 != p2 && Rescoped(s, t, k => Target(k, p1, p2))
    requires forall k: Key :: Target(k, p1, p2).Some? ==> |Found(t.activities, k)| == 1
    ensures forall n :: 1 <= n <= POSITIONS ==> OneForPosition(t, p1, n) && OneForPosition(t, p2, n)
  {
    hide Found, Target, OneForPosition;
    forall n | 1 <= n <= POSITIONS
      ensures OneForPosition(t, p1, n) && OneForPosition(t, p2, n)
    {
      PositionCovered(t, p1, p2, p1, n);
      PositionCovered(t, p1, p2, p2, n);
    }
  }

  // ----- scopes do not matter -----

  lemma RunOnIgnoresScopes(s: Store, structure: Structure, tasks: seq<Task>, u: Store)
    requires StoreWellFormed(s) && StoreWellFormed(u) && WellFormed(structure) && u.activities == s.activities
    ensures RunOn(u, structure, tasks).Some? <==> RunOn(s, structure, tasks).Some?
    ensures RunOn(s, structure, tasks).Some? ==>
      RunOn(u, structure, tasks).value.activities == RunOn(s, structure, tasks).value.activities
  {
    var from := s.(structure := structure);
    TasksIgnoreScopes(from, tasks, u.scopes);
    assert u.(structure := structure) == from.(scopes := u.scopes);
    hide RunTasks, WellFormed;
  }

  /** Whether a seed succeeds, and the records it leaves, do not depend on the scopes it starts from. */
  lemma SeedIgnoresScopes(s: Store, inputs: Inputs, scopes: seq<set<nat>>)
    requires StoreWellFormed(s) && |scopes| == |s.scopes| && Seed(s, inputs).Some?
    ensures StoreWellFormed(s.(scopes := scopes))
    ensures Seed(s.(scopes := scopes), inputs).Some?
    ensures Seed(s.(scopes := scopes), inputs).value.structure == Seed(s, inputs).value.structure
    ensures Seed(s.(scopes := scopes), inputs).value.activities == Seed(s, inputs).value.activities
  {
    var g := SeedStages(s, inputs);
    var u := s.(scopes := scopes);
    hide EnsureStructure, WellFormed, RunOn, InitialTasks, AmendmentTasks, SetScopes, RevisedScopes, Valid, Seed;
    RunOnIgnoresScopes(s, g.first, InitialTasks(inputs, g.p1), u);
    var a := RunOn(u, g.first, InitialTasks(inputs, g.p1)).value;
    RunOnIgnoresScopes(g.initial, g.second, AmendmentTasks(inputs, g.p1, g.p2), a);
    var b := RunOn(a, g.second, AmendmentTasks(inputs, g.p1, g.p2)).value;
    var h := Stages(g.first, g.p1, a, g.second, g.p2, b);
    StagesSeed(u, inputs, h, b.(scopes := SetScopes(b.activities, b.scopes, RevisedScopes(g.p1, |REVISED|))));
  }

  // ----- running it again -----

  /** Both packs' areas and controls are exactly those of their blueprints. */
  predicate BothMatch(st: Structure, inputs: Inputs, p1: nat, p2: nat)
    requires WellFormed(st)
  {
    Matches(st, p1, inputs.initial) && Matches(st, p2, inputs.amendment)
  }

  lemma RunOnAgain(t: Store, tasks: seq<Task>)
    requires StoreWellFormed(t) && forall x :: x in tasks ==> OwnScopes(x) && Done(t, x)
    ensures RunOn(t, t.structure, tasks).Some?
    ensures RunOn(t, t.structure, tasks).value.activities == t.activities
  {
    assert t.(structure := t.structure) == t;
    TasksAgain(t, tasks);
    hide RunTasks, WellFormed, Done, OwnScopes;
  }

  lemma DoneWithScopes(t: Store, scopes: seq<set<nat>>, task: Task)
    requires Done(t, task)
    ensures Done(t.(scopes := scopes), task)
  {
  }

  lemma FirstComplete(t: Store, inputs: Inputs, p1: nat)
    requires StoreWellFormed(t) && Valid(inputs) && Settled(t.structure, p1, inputs.initial, V10)
    requires forall x :: x in InitialTasks(inputs, p1) ==> OwnScopes(x) && Done(t, x)
    ensures RunOn(t, t.structure, InitialTasks(inputs, p1)).Some?
    ensures var a := RunOn(t, t.structure, InitialTasks(inputs, p1)).value;
      && a.structure == t.structure && a.activities == t.activities
      && SeedFirst(t, inputs) == if Matches(t.structure, p1, inputs.initial) then Some((a, p1)) else None
  {
    assert ValidPack(inputs.initial, V10);
    SettledAgain(t.structure, p1, inputs.initial, V10);
    RunOnAgain(t, InitialTasks(inputs, p1));
    hide EnsureStructure, WellFormed, RunOn, InitialTasks, Valid, Settled, Done, OwnScopes, Matches, ValidPack;
  }

  lemma SecondComplete(t: Store, inputs: Inputs, p1: nat, p2: nat, a: Store)
    requires StoreWellFormed(t) && Valid(inputs) && Settled(t.structure, p2, inputs.amendment, V11)
    requires StoreWellFormed(a) && a == t.(scopes := a.scopes)
    requires forall x :: x in AmendmentTasks(inputs, p1, p2) ==> OwnScopes(x) && Done(t, x)
    requires SeedFirst(t, inputs) == Some((a, p1))
    ensures Seed(t, inputs).Some? <==> Matches(t.structure, p2, inputs.amendment)
    ensures Seed(t, inputs).Some? ==>
      Seed(t, inputs).value.structure == t.structure && Seed(t, inputs).value.activities == t.activities
  {
    assert ValidPack(inputs.amendment, V11);
    SettledAgain(t.structure, p2, inputs.amendment, V11);
    hide EnsureStructure, WellFormed, RunOn, AmendmentTasks, Valid, Settled, Done, OwnScopes, Matches, ValidPack,
         SeedFirst, SetScopes, RevisedScopes;
    forall x | x in AmendmentTasks(inputs, p1, p2)
      ensures Done(a, x)
    {
      DoneWithScopes(t, a.scopes, x);
    }
    RunOnAgain(a, AmendmentTasks(inputs, p1, p2));
  }

  /** A complete store, with any scopes: seeding it succeeds exactly when both packs match their blueprints. */
  lemma SeedComplete(t: Store, inputs: Inputs, p1: nat, p2: nat)
    requires StoreWellFormed(t) && Valid(inputs) && AllDone(t, inputs, p1, p2)
    requires Settled(t.structure, p1, inputs.initial, V10) && Settled(t.structure, p2, inputs.amendment, V11)
    ensures Seed(t, inputs).Some? <==> BothMatch(t.structure, inputs, p1, p2)
    ensures Seed(t, inputs).Some? ==>
      Seed(t, inputs).value.structure == t.structure && Seed(t, inputs).value.activities == t.activities
  {
    assert ValidAmendment(inputs.amendment, inputs.initial);
    InitialOwn(inputs, p1);
    AmendmentOwn(inputs, p1, p2);
    hide EnsureStructure, WellFormed, RunOn, InitialTasks, AmendmentTasks, Valid, Settled, Done, OwnScopes, FinalScope,
         DistinctKeys, Matches, ValidAmendment, IsRevised, SeedFirst, SetScopes, RevisedScopes;
    FirstComplete(t, inputs, p1);
    if Matches(t.structure, p1, inputs.initial) {
      var a := RunOn(t, t.structure, InitialTasks(inputs, p1)).value;
      SecondComplete(t, inputs, p1, p2, a);
    }
  }

  /** The same scopes twice: what the targets leave is left alone. */
  lemma RescopedFixed(s: Store, t: Store, u: Store, f: Key -> Option<set<nat>>)
    requires Rescoped(s, t, f) && Rescoped(t, u, f) && u.activities == t.activities
    ensures u.scopes == t.scopes
  {
    forall a | 0 <= a < |t.scopes|
      ensures u.scopes[a] == t.scopes[a]
    {
    }
  }

  /**
   * A second run, from whatever scopes, creates nothing and ends in the same store - unless the packs do not
   * match their blueprints, and then it fails.
   */
  lemma SecondRun(s: Store, inputs: Inputs) returns (p1: nat, p2: nat)
    requires StoreWellFormed(s) && Seed(s, inputs).Some?
    ensures var t := Seed(s, inputs).value;
      && Position(t.structure.packs, V10) == Some(p1) && Position(t.structure.packs, V11) == Some(p2)
      && Seed(t, inputs) == if BothMatch(t.structure, inputs, p1, p2) then Some(t) else None
  {
    var g := SeedStages(s, inputs);
    var t := Seed(s, inputs).value;
    BothSettled(s, inputs, g, t);
    AllDoneAtEnd(s, inputs, g, t);
    StagesRescope(s, inputs, g, t);
    p1, p2 := g.p1, g.p2;
    assert Position(t.structure.packs, V10) == Some(p1) && Position(t.structure.packs, V11) == Some(p2);
    AllDoneScopes(g.amended, t, inputs, p1, p2);
    hide Seed, Settled, KeptRows, Found, Position, AllDone, Valid, EnsureStructure, RunOn, SetScopes, InitialTasks,
         AmendmentTasks, RevisedScopes, WellFormed, Target, Matches, Rescoped;
    SeedComplete(t, inputs, p1, p2);
    if Seed(t, inputs).Some? {
      SameAgain(s, t, inputs, g);
    }
  }

  lemma AllDoneScopes(b: Store, t: Store, inputs: Inputs, p1: nat, p2: nat)
    requires AllDone(b, inputs, p1, p2) && t == b.(scopes := t.scopes)
    ensures AllDone(t, inputs, p1, p2)
  {
    hide InitialTasks, AmendmentTasks, Aligned, ValueOf, Present;
  }

  lemma SameAgain(s: Store, t: Store, inputs: Inputs, g: Stages)
    requires StoreWellFormed(s) && StoreWellFormed(t) && StagesOf(s, inputs, g, t) && Seed(t, inputs).Some?
    requires Seed(t, inputs).value.structure == t.structure && Seed(t, inputs).value.activities == t.activities
    ensures Seed(t, inputs) == Some(t)
  {
    var u := Seed(t, inputs).value;
    var h := SeedStages(t, inputs);
    BothSettled(s, inputs, g, t);
    BothSettled(t, inputs, h, u);
    assert h.p1 == g.p1 && h.p2 == g.p2 by {
      assert u.structure == t.structure;
      assert Position(t.structure.packs, V10) == Some(g.p1) && Position(u.structure.packs, V10) == Some(h.p1);
      assert Position(t.structure.packs, V11) == Some(g.p2) && Position(u.structure.packs, V11) == Some(h.p2);
    }
    StagesRescope(s, inputs, g, t);
    StagesRescope(t, inputs, h, u);
    hide *;
    SameTargets(s, t, u, g.p1, g.p2);
  }

  lemma SameTargets(s: Store, t: Store, u: Store, p1: nat, p2: nat)
    requires Rescoped(s, t, k => Target(k, p1, p2)) && Rescoped(t, u, k => Target(k, p1, p2))
    requires u.structure == t.structure && u.activities == t.activities
    ensures u == t
  {
    hide Target;
    RescopedFixed(s, t, u, k => Target(k, p1, p2));
  }

  // ----- when a pack still matches -----

  /** Nothing in the pack but what the blueprint has: no stray area and no stray control. */
  predicate NoStrays(st: Structure, p: nat, bp: Blueprint)
    requires WellFormed(st)
  {
    && (forall c :: c in AreaCodes(st.areas, p) ==> c in CodesOf(bp.phases))
    && (forall c :: c in LineCodes(st.controls, st.lines, p) ==> c in ControlCodes(bp.items))
  }

  lemma {:induction false} AreaCodesFound(areas: seq<Row<AreaKey, string>>, p: nat, c: string)
    ensures c in AreaCodes(areas, p) <==> Found(areas, AreaKey(p, c)) != []
  {
    if areas != [] {
      AreaCodesFound(areas[..|areas| - 1], p, c);
    }
  }

  lemma {:induction false} AreaCodesDistinct(areas: seq<Row<AreaKey, string>>, p: nat)
    requires forall c :: c in AreaCodes(areas, p) ==> |Found(areas, AreaKey(p, c))| == 1
    ensures NoDuplicates(AreaCodes(areas, p))
  {
    if areas != [] {
      var fewer, last := areas[..|areas| - 1], areas[|areas| - 1];
      forall c | c in AreaCodes(fewer, p)
        ensures |Found(fewer, AreaKey(p, c))| == 1
      {
        AreaCodesFound(fewer, p, c);
        assert c in AreaCodes(areas, p);
      }
      AreaCodesDistinct(fewer, p);
      if last.key.pack == p {
        AreaCodesFound(fewer, p, last.key.code);
        assert last.key.code in AreaCodes(areas, p);
        DistinctSnoc(AreaCodes(fewer, p), last.key.code);
      }
    }
  }

  lemma {:induction false} LineCodesFound(controls: seq<Row<string, string>>, lines: seq<Row<LineKey, LineValue>>,
                                          p: nat, c: string)
    requires forall i :: 0 <= i < |lines| ==> lines[i].key.control < |controls|
    ensures c in LineCodes(controls, lines, p) <==>
            exists i :: 0 <= i < |lines| && lines[i].key.pack == p && controls[lines[i].key.control].key == c
  {
    if lines != [] {
      LineCodesFound(controls, lines[..|lines| - 1], p, c);
    }
  }

  lemma PhaseCodesDistinct()
    ensures NoDuplicates(PhaseCodes())
  {
    hide PhaseCode;
    forall i, j | 0 <= i < j < PHASES
      ensures PhaseCode(i) != PhaseCode(j)
    {
      PhaseCodesDiffer(i, j);
    }
  }

  lemma PhaseCodesDiffer(i: nat, j: nat)
    requires i != j
    ensures PhaseCode(i) != PhaseCode(j)
  {
    Decimal.ZeroFilledDiffer(i + 1, j + 1);
    hide Decimal.Print, Decimal.ZeroFill2;
    AfterLetter(Decimal.ZeroFill2(Decimal.Print(i + 1)), Decimal.ZeroFill2(Decimal.Print(j + 1)));
  }

  lemma AfterLetter(a: string, b: string)
    requires a != b
    ensures "P" + a != "P" + b
  {
    assert ("P" + a)[1..] == a && ("P" + b)[1..] == b;
  }

  lemma SettledAreas(st: Structure, p: nat, bp: Blueprint, v: Version)
    requires Settled(st, p, bp, v) && ValidPack(bp, v)
    ensures forall c :: c in CodesOf(bp.phases) ==> |Found(st.areas, AreaKey(p, c))| == 1
    ensures |AreaCodes(st.areas, p)| == |bp.phases| && ToSet(AreaCodes(st.areas, p)) == ToSet(CodesOf(bp.phases))
            <==> forall c :: c in AreaCodes(st.areas, p) ==> c in CodesOf(bp.phases)
  {
    var codes, phases := AreaCodes(st.areas, p), CodesOf(bp.phases);
    hide Found, AreaCodes, LineWants;
    forall c | c in phases
      ensures |Found(st.areas, AreaKey(p, c))| == 1 && c in codes
    {
      var i :| 0 <= i < |phases| && phases[i] == c;
      assert AreaWants(p, bp.phases)[i] in AreaWants(p, bp.phases);
      AreaCodesFound(st.areas, p, c);
    }
    hide Settled, AreaWants, CodesOf;
    if forall c :: c in codes ==> c in phases {
      AreaCodesDistinct(st.areas, p);
      PhaseCodesDistinct();
      SetSize(codes);
      SetSize(phases);
      assert ToSet(codes) == ToSet(phases);
    } else {
      var c :| c in codes && c !in phases;
      assert c in ToSet(codes) && c !in ToSet(phases);
    }
  }

  lemma SettledLines(st: Structure, p: nat, bp: Blueprint, v: Version)
    requires Settled(st, p, bp, v)
    ensures ToSet(LineCodes(st.controls, st.lines, p)) == ToSet(ControlCodes(bp.items))
            <==> forall c :: c in LineCodes(st.controls, st.lines, p) ==> c in ControlCodes(bp.items)
  {
    var codes, expected := LineCodes(st.controls, st.lines, p), ControlCodes(bp.items);
    var wants := LineWants(st.controls, st.areas, p, bp.items).value;
    LineWantsHold(st.controls, st.areas, p, bp.items);
    hide AreaWants, LineWants, Found, Position, LineCodes;
    forall c | c in expected
      ensures c in codes
    {
      var i :| 0 <= i < |expected| && expected[i] == c;
      assert wants[i] in wants;
      PositionOfFound(st.lines, wants[i].0);
      LineCodesFound(st.controls, st.lines, p, c);
    }
    hide Settled, ControlCodes;
    if c :| c in codes && c !in expected {
      assert c in ToSet(codes) && c !in ToSet(expected);
    } else {
      assert ToSet(codes) == ToSet(expected);
    }
  }

  /** A settled pack matches its blueprint exactly when it holds nothing else. */
  lemma MatchesExactly(st: Structure, p: nat, bp: Blueprint, v: Version)
    requires Settled(st, p, bp, v) && ValidPack(bp, v)
    ensures Matches(st, p, bp) <==> NoStrays(st, p, bp)
  {
    SettledAreas(st, p, bp, v);
    SettledLines(st, p, bp, v);
    hide Settled, ValidPack, AreaCodes, LineCodes, CodesOf, ControlCodes, ToSet, Found;
  }

  lemma ContentsAreas(st: Structure, p: nat, bp: Blueprint, q: nat, c: string)
    requires WellFormed(st) && p < |st.packs| && EnsureContents(st, p, bp).Some?
    ensures var t := EnsureContents(st, p, bp).value;
      && (c in AreaCodes(st.areas, q) ==> c in AreaCodes(t.areas, q))
      && (c in AreaCodes(t.areas, q) ==> c in AreaCodes(st.areas, q) || (q == p && c in CodesOf(bp.phases)))
  {
    var draft := st.states[p].Draft?;
    var wants := AreaWants(p, bp.phases);
    AllPresent(st.areas, wants, draft);
    var t := EnsureContents(st, p, bp).value;
    AreaCodesFound(st.areas, q, c);
    AreaCodesFound(t.areas, q, c);
    hide Found, Position, EnsureAll, LineWants, Matches, Present, AreaCodes, AreaWants, WellFormed;
    if !(q == p && c in CodesOf(bp.phases)) {
      forall w | w in wants
        ensures w.0 != AreaKey(q, c)
      {
        var i :| 0 <= i < |wants| && wants[i] == w;
        assert bp.phases[i].code == CodesOf(bp.phases)[i];
      }
    }
  }

  lemma AppendedLines(controls: seq<Row<string, string>>, before: seq<Row<LineKey, LineValue>>,
                      after: seq<Row<LineKey, LineValue>>,
                      q: nat, c: string)
    requires before <= after && forall i :: 0 <= i < |after| ==> after[i].key.control < |controls|
    ensures forall i :: 0 <= i < |before| ==> before[i].key.control < |controls|
    ensures c in LineCodes(controls, before, q) ==> c in LineCodes(controls, after, q)
    ensures c in LineCodes(controls, after, q) && c !in LineCodes(controls, before, q) ==>
      exists r :: r in after[|before|..] && r.key.pack == q
                  && r.key.control < |controls| && controls[r.key.control].key == c
  {
    LineCodesFound(controls, before, q, c);
    LineCodesFound(controls, after, q, c);
    hide LineCodes;
    assert forall i :: 0 <= i < |before| ==> after[i] == before[i];
    assert forall i :: |before| <= i < |after| ==> after[i] == after[|before|..][i - |before|];
  }

  lemma WantedLine(controls: seq<Row<string, string>>, areas: seq<Row<AreaKey, string>>, p: nat, items: seq<Item>,
                   r: Row<LineKey, LineValue>)
    requires LineWants(controls, areas, p, items).Some?
    requires (r.key, r.value) in LineWants(controls, areas, p, items).value
    ensures r.key.pack == p && r.key.control < |controls| && controls[r.key.control].key in ControlCodes(items)
  {
    LineWantsHold(controls, areas, p, items);
    var wants := LineWants(controls, areas, p, items).value;
    hide LineWants;
    var j :| 0 <= j < |wants| && wants[j] == (r.key, r.value);
    assert ControlCodes(items)[j] == items[j].control;
  }

  lemma ContentsLines(st: Structure, p: nat, bp: Blueprint, q: nat, c: string)
    requires WellFormed(st) && p < |st.packs| && EnsureContents(st, p, bp).Some?
    ensures WellFormed(EnsureContents(st, p, bp).value)
    ensures var t := EnsureContents(st, p, bp).value;
      && (c in LineCodes(st.controls, st.lines, q) ==> c in LineCodes(t.controls, t.lines, q))
      && (c in LineCodes(t.controls, t.lines, q) ==>
        c in LineCodes(st.controls, st.lines, q) || (q == p && c in ControlCodes(bp.items)))
  {
    EnsureContentsWellFormed(st, p, bp);
    var t, draft := EnsureContents(st, p, bp).value, st.states[p].Draft?;
    var wants := LineWants(st.controls, t.areas, p, bp.items).value;
    OnlyWantedAdded(st.lines, wants, draft);
    hide Found, Position, EnsureAll, LineWants, Matches, LineCodes, AreaWants, ControlCodes;
    AppendedLines(st.controls, st.lines, t.lines, q, c);
    if c in LineCodes(t.controls, t.lines, q) && c !in LineCodes(st.controls, st.lines, q) {
      var r :| r in t.lines[|st.lines|..] && r.key.pack == q
               && r.key.control < |st.controls| && st.controls[r.key.control].key == c;
      WantedLine(st.controls, t.areas, p, bp.items, r);
    }
  }

  /** Ensuring a pack adds only what its blueprint has, and nothing to other packs. */
  lemma StructureStrays(st: Structure, bp: Blueprint, v: Version, q: nat, other: Blueprint)
    requires WellFormed(st) && EnsureStructure(st, bp, v).Some?
    ensures var (t, p) := EnsureStructure(st, bp, v).value;
      WellFormed(t) && (q != p || other == bp ==> (NoStrays(t, q, other) <==> NoStrays(st, q, other)))
  {
    hide EnsurePack, EnsureContents, ValidPack, AreaCodes, LineCodes, CodesOf, ControlCodes, Found, Position,
         WellFormed;
    EnsurePackHolds(st, bp, v);
    StructureWellFormed(st, bp, v);
    var (packed, p) := EnsurePack(st, bp, v).value;
    forall c: string
      ensures var t := EnsureContents(packed, p, bp).value;
        && (c in AreaCodes(st.areas, q) ==> c in AreaCodes(t.areas, q))
        && (c in AreaCodes(t.areas, q) ==> c in AreaCodes(st.areas, q) || (q == p && c in CodesOf(bp.phases)))
    {
      ContentsAreas(packed, p, bp, q, c);
    }
    SameControlsLines(st, packed);
    SameControlsLines(EnsureContents(packed, p, bp).value, EnsureContents(packed, p, bp).value);
    forall c: string
      ensures var t := EnsureContents(packed, p, bp).value;
        && (c in LineCodes(st.controls, st.lines, q) ==> c in LineCodes(t.controls, t.lines, q))
        && (c in LineCodes(t.controls, t.lines, q) ==>
          c in LineCodes(st.controls, st.lines, q) || (q == p && c in ControlCodes(bp.items)))
    {
      ContentsLines(packed, p, bp, q, c);
    }
  }

  lemma SameControlsLines(st: Structure, t: Structure)
    requires WellFormed(st) && t == st.(packs := t.packs, states := t.states)
    ensures t.controls == st.controls && t.lines == st.lines && t.areas == st.areas
    ensures forall i :: 0 <= i < |st.lines| ==> st.lines[i].key.control < |st.controls|
  {
  }

  /**
   * A second run succeeds, and changes nothing, exactly when at the time of the first run neither pack
   * held an area or a control its blueprint does not have; a pack that did not exist holds none.
   */
  lemma RerunExactly(s: Store, inputs: Inputs) returns (p1: nat, p2: nat)
    requires StoreWellFormed(s) && Seed(s, inputs).Some?
    ensures var t := Seed(s, inputs).value;
      && Position(t.structure.packs, V10) == Some(p1) && Position(t.structure.packs, V11) == Some(p2)
      && Seed(t, inputs)
         == if NoStrays(s.structure, p1, inputs.initial) && NoStrays(s.structure, p2, inputs.amendment)
            then Some(t) else None
  {
    p1, p2 := SecondRun(s, inputs);
    var g := SeedStages(s, inputs);
    var t := Seed(s, inputs).value;
    BothSettled(s, inputs, g, t);
    assert g.p1 == p1 && g.p2 == p2 && t.structure == g.second by {
      assert Position(g.second.packs, V10) == Some(g.p1) && Position(g.second.packs, V11) == Some(g.p2);
    }
    assert ValidPack(inputs.initial, V10) && ValidPack(inputs.amendment, V11);
    hide Seed, Settled, EnsureStructure, RunOn, NoStrays, Matches, ValidPack, WellFormed, Position;
    StructureStrays(s.structure, inputs.initial, V10, p1, inputs.initial);
    StructureStrays(s.structure, inputs.initial, V10, p2, inputs.amendment);
    StructureStrays(g.first, inputs.amendment, V11, p1, inputs.initial);
    StructureStrays(g.first, inputs.amendment, V11, p2, inputs.amendment);
    MatchesExactly(g.second, p1, inputs.initial, V10);
    MatchesExactly(g.second, p2, inputs.amendment, V11);
  }

  /** A pack that does not exist yet has no strays, so a fresh installation can always be seeded again. */
  lemma {:induction false} NewPackHasNoStrays(st: Structure, p: nat, bp: Blueprint)
    requires WellFormed(st) && |st.packs| <= p
    ensures NoStrays(st, p, bp)
  {
    forall c: string
      ensures c !in LineCodes(st.controls, st.lines, p) && c !in AreaCodes(st.areas, p)
    {
      LineCodesFound(st.controls, st.lines, p, c);
      AreaCodesFound(st.areas, p, c);
      PositionOfFound(st.areas, AreaKey(p, c));
    }
    hide LineCodes, AreaCodes;
  }
}
