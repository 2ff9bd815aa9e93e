/** The CAPA workflow in the words of its users: what each action asks, what it writes and what it logs. */
module CapaRules {
  import opened Common
  import opened EventLog
  import opened StateTable
  import opened Capas
  import opened CapaRuns

  // ----- sources and slots -----

  /** An NCR source names its nonconformity, a risk source its risk, and no source names anything else. */
  lemma SourceExactly(s: Source)
    ensures ValidSource(s) <==> (s.ncr.Some? <==> s.kind == Ncr) && (s.risk.Some? <==> s.kind == Risk)
  {
  }

  const PROMPTS: seq<string> := [
    "Why did the problem occur?",
    "Why did the condition identified in Why 1 occur?",
    "Why did the condition identified in Why 2 occur?",
    "Why did the condition identified in Why 3 occur?",
    "Why did the condition identified in Why 4 occur?"]

  lemma PromptsSpelled(n: int)
    requires 1 <= n <= 5
    ensures Prompt(n) == PROMPTS[n - 1]
  {
  }

  /** In every reachable state each Why slot asks its own question. */
  lemma ReachablePrompts(steps: seq<(Actor, Action)>, x: nat, i: nat)
    requires x in Run(steps).capas && i < |Run(steps).capas[x].whys|
    ensures var w := Run(steps).capas[x].whys[i];
      1 <= w.sequence <= 5 && w.question == PROMPTS[w.sequence - 1]
  {
    ReachableFileOk(steps);
    var s := Run(steps);
    var c := s.capas[x];
    hide Run, TableOk, Prompt, RowsOk, NoDuplicates, Full;
    assert CapaOk(c, s.table.states[x]);
    assert c.whys[i] in c.whys;
    PromptsSpelled(c.whys[i].sequence);
  }

  predicate HasWhy(c: Capa, n: int) { exists i :: 0 <= i < |c.whys| && c.whys[i].sequence == n }

  predicate HasRow(c: Capa, d: Dimension) { exists i :: 0 <= i < |c.rows| && c.rows[i].dimension == d }

  lemma {:induction false} MissingAscending(whys: seq<Why>, numbers: seq<int>)
    requires forall i, j :: 0 <= i < j < |numbers| ==> numbers[i] < numbers[j]
    ensures forall i, j :: 0 <= i < j < |MissingWhys(whys, numbers)| ==>
      MissingWhys(whys, numbers)[i] < MissingWhys(whys, numbers)[j]
  {
    if numbers != [] {
      var fewer := numbers[..|numbers| - 1];
      MissingAscending(whys, fewer);
      MissingWhysHolds(whys, fewer);
      var earlier := MissingWhys(whys, fewer);
      forall i | 0 <= i < |earlier|
        ensures earlier[i] < numbers[|numbers| - 1]
      {
        assert earlier[i] in earlier;
        var k :| 0 <= k < |fewer| && fewer[k] == earlier[i];
        assert numbers[k] < numbers[|numbers| - 1];
      }
    }
  }

  lemma NotAsked(whys: seq<Why>, n: int)
    requires n !in Sequences(whys)
    ensures forall i :: 0 <= i < |whys| ==> whys[i].sequence != n
  {
    forall i | 0 <= i < |whys|
      ensures whys[i].sequence != n
    {
      assert Sequences(whys)[i] == whys[i].sequence;
    }
  }

  lemma MissingSlots(whys: seq<Why>)
    ensures var missing := MissingWhys(whys, SLOTS);
      && (forall k :: 0 <= k < |missing| ==>
            1 <= missing[k] <= 5 && forall i :: 0 <= i < |whys| ==> whys[i].sequence != missing[k])
      && (forall i, j :: 0 <= i < j < |missing| ==> missing[i] < missing[j])
  {
    MissingWhysHolds(whys, SLOTS);
    MissingAscending(whys, SLOTS);
    var missing := MissingWhys(whys, SLOTS);
    hide MissingWhys, Sequences;
    forall k | 0 <= k < |missing|
      ensures 1 <= missing[k] <= 5 && forall i :: 0 <= i < |whys| ==> whys[i].sequence != missing[k]
    {
      assert missing[k] in missing;
      InSlots(missing[k]);
      NotAsked(whys, missing[k]);
    }
  }

  lemma NewWhysAsk(missing: seq<int>)
    requires forall k :: 0 <= k < |missing| ==> 1 <= missing[k] <= 5
    ensures forall k :: 0 <= k < |missing| ==> NewWhys(missing)[k] == Why(missing[k], PROMPTS[missing[k] - 1], false)
  {
    forall k | 0 <= k < |missing|
      ensures NewWhys(missing)[k] == Why(missing[k], PROMPTS[missing[k] - 1], false)
    {
      PromptsSpelled(missing[k]);
    }
  }

  /** Initializing a 5 Why analysis adds the missing slots, in order, unanswered, and nothing else. */
  lemma WhysAdded(c: Capa)
    requires SlotsOk(c) && c.method_ == FiveWhy
    ensures Initialize(c).Some?
    ensures var d := Initialize(c).value;
      && d == c.(whys := d.whys) && c.whys <= d.whys && |d.whys| == 5
      && (forall i :: |c.whys| <= i < |d.whys| ==>
            && 1 <= d.whys[i].sequence <= 5 && !HasWhy(c, d.whys[i].sequence)
            && !d.whys[i].answered && d.whys[i].question == PROMPTS[d.whys[i].sequence - 1])
      && (forall i, j :: |c.whys| <= i < j < |d.whys| ==> d.whys[i].sequence < d.whys[j].sequence)
  {
    var missing := MissingWhys(c.whys, SLOTS);
    InitializeCompletes(c);
    InitializeWhys(c);
    MissingSlots(c.whys);
    NewWhysAsk(missing);
    var d := Initialize(c).value;
    assert |d.whys| == 5 by {
      hide Initialize, MissingWhys, SlotsOk;
    }
    hide MissingWhys, SlotsOk, WhyIntegrity, Prompt, NewWhys, Initialize, FullWhys, FullRows, Full;
    assert d.whys == c.whys + NewWhys(missing);
    forall i | |c.whys| <= i < |d.whys|
      ensures d.whys[i] == NewWhys(missing)[i - |c.whys|]
    {
    }
  }

  lemma {:induction false} MissingRowsAre(rows: seq<Row>, dimensions: seq<Dimension>)
    ensures forall d :: d in MissingRows(rows, dimensions) <==> d in dimensions && d !in RowDimensions(rows)
  {
    hide RowDimensions;
    if dimensions != [] {
      var fewer, last := dimensions[..|dimensions| - 1], dimensions[|dimensions| - 1];
      MissingRowsAre(rows, fewer);
      assert dimensions == fewer + [last];
    }
  }

  predicate Ascend(dimensions: seq<Dimension>) {
    forall i, j :: 0 <= i < j < |dimensions| ==> SequenceOf(dimensions[i]) < SequenceOf(dimensions[j])
  }

  lemma {:induction false} MissingRowsAscend(rows: seq<Row>, dimensions: seq<Dimension>)
    requires Ascend(dimensions)
    ensures Ascend(MissingRows(rows, dimensions))
  {
    hide SequenceOf, RowDimensions;
    if dimensions != [] {
      var fewer, last := dimensions[..|dimensions| - 1], dimensions[|dimensions| - 1];
      MissingRowsAscend(rows, fewer);
      MissingRowsAre(rows, fewer);
      var earlier := MissingRows(rows, fewer);
      forall i | 0 <= i < |earlier|
        ensures SequenceOf(earlier[i]) < SequenceOf(last)
      {
        assert earlier[i] in earlier;
        var k :| 0 <= k < |fewer| && fewer[k] == earlier[i];
        assert SequenceOf(dimensions[k]) < SequenceOf(dimensions[|dimensions| - 1]);
      }
    }
  }

  lemma MissingDimensions(rows: seq<Row>)
    ensures var missing := MissingRows(rows, DIMENSIONS);
      && (forall k :: 0 <= k < |missing| ==> forall i :: 0 <= i < |rows| ==> rows[i].dimension != missing[k])
      && (forall i, j :: 0 <= i < j < |missing| ==> SequenceOf(missing[i]) < SequenceOf(missing[j]))
  {
    MissingRowsAre(rows, DIMENSIONS);
    MissingRowsAscend(rows, DIMENSIONS);
    var missing := MissingRows(rows, DIMENSIONS);
    hide MissingRows, SequenceOf;
    forall k, i | 0 <= k < |missing| && 0 <= i < |rows|
      ensures rows[i].dimension != missing[k]
    {
      assert missing[k] in missing;
      assert RowDimensions(rows)[i] == rows[i].dimension;
    }
  }

  /** What, Where, When and Extent are numbered one to four. */
  function Place(d: Dimension): int {
    if d == What then 1 else if d == Where then 2 else if d == When then 3 else 4
  }

  /** Initializing an Is / Is Not analysis adds the missing rows, in order, blank, and nothing else. */
  lemma RowsAdded(c: Capa)
    requires SlotsOk(c) && c.method_ == IsIsNot
    ensures Initialize(c).Some?
    ensures var d := Initialize(c).value;
      && d == c.(rows := d.rows) && c.rows <= d.rows && |d.rows| == 4
      && (forall i :: |c.rows| <= i < |d.rows| ==>
            && !HasRow(c, d.rows[i].dimension)
            && d.rows[i] == Row(d.rows[i].dimension, Place(d.rows[i].dimension), false, false, false))
      && (forall i, j :: |c.rows| <= i < j < |d.rows| ==> Place(d.rows[i].dimension) < Place(d.rows[j].dimension))
  {
    var missing := MissingRows(c.rows, DIMENSIONS);
    assert forall d: Dimension :: SequenceOf(d) == Place(d);
    InitializeCompletes(c);
    InitializeRows(c);
    MissingDimensions(c.rows);
    var d := Initialize(c).value;
    assert |d.rows| == 4 by {
      hide Initialize, MissingRows, SlotsOk;
    }
    hide MissingRows, SlotsOk, RowIntegrity, Initialize, FullWhys, FullRows, Full;
    assert d.rows == c.rows + NewRows(missing);
    forall i | |c.rows| <= i < |d.rows|
      ensures d.rows[i] == Row(missing[i - |c.rows|], SequenceOf(missing[i - |c.rows|]), false, false, false)
    {
    }
  }

  /** The other methods start with what they have. */
  lemma NothingAdded(c: Capa)
    ensures c.method_ == Fishbone || c.method_ == OtherMethod ==> Initialize(c) == Some(c)
  {
  }

  // ----- what a completed analysis is -----

  predicate Asked(whys: seq<Why>, n: int) { exists i :: 0 <= i < |whys| && whys[i].sequence == n }

  /** The slots up to a number are answered, and no others. */
  predicate AnsweredThrough(whys: seq<Why>, k: int) {
    forall i :: 0 <= i < |whys| ==> (whys[i].answered <==> whys[i].sequence <= k)
  }

  /** Five slots, one for each number, answered from the first on without a gap. */
  predicate WhysAnswered(whys: seq<Why>) {
    && |whys| == 5 && Asked(whys, 1) && Asked(whys, 2) && Asked(whys, 3) && Asked(whys, 4) && Asked(whys, 5)
    && exists k :: 1 <= k <= 5 && AnsweredThrough(whys, k)
  }

  /** Some cause is confirmed, and each confirmed one has its basis and its rationale. */
  predicate CausesConfirmed(causes: seq<Cause>) {
    && (exists i :: 0 <= i < |causes| && causes[i].confirmed)
    && forall i :: 0 <= i < |causes| && causes[i].confirmed ==> causes[i].basis && causes[i].rationale
  }

  predicate Describes(rows: seq<Row>, d: Dimension) { exists i :: 0 <= i < |rows| && rows[i].dimension == d }

  predicate Numbered(rows: seq<Row>, n: int) { exists i :: 0 <= i < |rows| && rows[i].sequence == n }

  /** Four rows, one for each dimension and each number, all three columns filled in. */
  predicate RowsFilled(rows: seq<Row>) {
    && |rows| == 4 && Describes(rows, What) && Describes(rows, Where) && Describes(rows, When)
    && Describes(rows, Extent)
    && Numbered(rows, 1) && Numbered(rows, 2) && Numbered(rows, 3) && Numbered(rows, 4)
    && forall i :: 0 <= i < 4 ==> rows[i].isValue && rows[i].isNotValue && rows[i].distinction
  }

  /** Some action is not dropped, and none is still open. */
  predicate ActionsFinished(actions: seq<ActionStatus>) {
    && (exists i :: 0 <= i < |actions| && actions[i] != Dropped)
    && forall i :: 0 <= i < |actions| ==> actions[i] != Open
  }

  predicate AnalysisComplete(c: Capa) {
    && c.analysis && c.rootCause
    && (c.method_ == FiveWhy ==> WhysAnswered(c.whys)) && (c.method_ == Fishbone ==> CausesConfirmed(c.causes))
    && (c.method_ == IsIsNot ==> RowsFilled(c.rows)) && (c.method_ == OtherMethod ==> c.otherMethod)
  }

  lemma SubsetSize<T>(a: set<T>, b: set<T>)
    requires a <= b && |b| <= |a|
    ensures a == b
  {
    assert b == a + (b - a);
    assert |b| == |a| + |b - a|;
  }

  /** As many values as there are wanted ones, all wanted ones among them: they are the wanted ones. */
  lemma ListFilled<T>(values: seq<T>, wanted: seq<T>)
    requires NoDuplicates(wanted) && |values| == |wanted| && forall x :: x in wanted ==> x in values
    ensures ToSet(values) == ToSet(wanted) && NoDuplicates(values)
  {
    SetSize(values);
    SetSize(wanted);
    hide NoDuplicates;
    assert ToSet(wanted) <= ToSet(values);
    SubsetSize(ToSet(wanted), ToSet(values));
  }

  lemma SameElements<T>(a: seq<T>, b: seq<T>)
    requires ToSet(a) == ToSet(b)
    ensures forall x :: x in a <==> x in b
  {
    assert forall x :: x in a <==> x in ToSet(a);
    assert forall x :: x in b <==> x in ToSet(b);
  }

  lemma AskedExactly(whys: seq<Why>, n: int)
    ensures Asked(whys, n) <==> n in Sequences(whys)
  {
    var numbers := Sequences(whys);
    assert forall i :: 0 <= i < |whys| ==> numbers[i] == whys[i].sequence;
  }

  lemma NumbersExactly(whys: seq<Why>)
    ensures FullWhys(whys) <==> |whys| == 5 && forall n :: 1 <= n <= 5 ==> Asked(whys, n)
    ensures FullWhys(whys) ==> NoDuplicates(Sequences(whys)) && forall n :: n in Sequences(whys) ==> 1 <= n <= 5
  {
    FiveSlots();
    forall n: int
      ensures n in SLOTS <==> 1 <= n <= 5
      ensures Asked(whys, n) <==> n in Sequences(whys)
    {
      InSlots(n);
      AskedExactly(whys, n);
    }
    hide Sequences, NoDuplicates, Asked, SLOTS, ToSet;
    if |whys| == 5 && forall n :: 1 <= n <= 5 ==> Asked(whys, n) {
      ListFilled(Sequences(whys), SLOTS);
    }
    if FullWhys(whys) {
      SameElements(Sequences(whys), SLOTS);
      assert |SLOTS| == 5;
      ListFilled(Sequences(whys), SLOTS);
    }
  }

  lemma OneSlotEach(whys: seq<Why>)
    requires FullWhys(whys)
    ensures forall i, j :: 0 <= i < j < |whys| ==> whys[i].sequence != whys[j].sequence
    ensures forall i :: 0 <= i < |whys| ==> 1 <= whys[i].sequence <= 5
  {
    NumbersExactly(whys);
    var numbers := Sequences(whys);
    assert forall i :: 0 <= i < |whys| ==> numbers[i] == whys[i].sequence;
    hide FullWhys, Asked, Sequences;
    assert forall i :: 0 <= i < |whys| ==> numbers[i] in numbers;
  }

  lemma AnsweredExactly(whys: seq<Why>, k: int)
    requires FullWhys(whys)
    ensures AnsweredUpTo(whys, k) <==> AnsweredThrough(whys, k)
  {
    OneSlotEach(whys);
    NumbersExactly(whys);
    hide FullWhys, Sequences, NoDuplicates;
    if AnsweredUpTo(whys, k) {
      forall i | 0 <= i < |whys|
        ensures whys[i].answered <==> whys[i].sequence <= k
      {
        assert Answered(whys, whys[i].sequence) <==> whys[i].sequence <= k;
      }
    }
    if AnsweredThrough(whys, k) {
      forall s | 1 <= s <= 5
        ensures Answered(whys, s) <==> s <= k
      {
        assert Asked(whys, s);
      }
    }
  }

  lemma WhysExactly(whys: seq<Why>)
    ensures FiveWhyComplete(whys) <==> WhysAnswered(whys)
  {
    FiveWhyExactly(whys);
    NumbersExactly(whys);
    hide FiveWhyComplete, FullWhys, Asked, Sequences, NoDuplicates;
    if FullWhys(whys) {
      forall k
        ensures AnsweredUpTo(whys, k) <==> AnsweredThrough(whys, k)
      {
        AnsweredExactly(whys, k);
      }
    }
    hide AnsweredUpTo, AnsweredThrough;
  }

  lemma CausesExactly(causes: seq<Cause>)
    ensures FishboneComplete(causes) <==> CausesConfirmed(causes)
  {
    if FishboneComplete(causes) {
      var c :| c in causes && c.confirmed;
      var i :| 0 <= i < |causes| && causes[i] == c;
    }
  }

  lemma DescribesExactly(rows: seq<Row>, d: Dimension)
    ensures Describes(rows, d) <==> d in RowDimensions(rows)
  {
    var dimensions := RowDimensions(rows);
    assert forall i :: 0 <= i < |rows| ==> dimensions[i] == rows[i].dimension;
  }

  lemma NumberedExactly(rows: seq<Row>, n: int)
    ensures Numbered(rows, n) <==> n in RowSequences(rows)
  {
    var numbers := RowSequences(rows);
    assert forall i :: 0 <= i < |rows| ==> numbers[i] == rows[i].sequence;
  }

  lemma DimensionsExactly(rows: seq<Row>)
    requires |rows| == 4
    ensures ToSet(RowDimensions(rows)) == ToSet(DIMENSIONS)
            <==> Describes(rows, What) && Describes(rows, Where) && Describes(rows, When) && Describes(rows, Extent)
  {
    forall d: Dimension
      ensures Describes(rows, d) <==> d in RowDimensions(rows)
      ensures d in DIMENSIONS
    {
      DescribesExactly(rows, d);
      EveryDimension(d);
    }
    assert NoDuplicates(DIMENSIONS) && |DIMENSIONS| == 4;
    hide Describes, RowDimensions, NoDuplicates, ToSet, DIMENSIONS;
    if ToSet(RowDimensions(rows)) == ToSet(DIMENSIONS) {
      SameElements(RowDimensions(rows), DIMENSIONS);
    } else if forall d: Dimension :: Describes(rows, d) {
      ListFilled(RowDimensions(rows), DIMENSIONS);
    }
    assert (forall d: Dimension :: Describes(rows, d))
      <==> Describes(rows, What) && Describes(rows, Where) && Describes(rows, When) && Describes(rows, Extent);
  }

  lemma RowNumbersExactly(rows: seq<Row>)
    requires |rows| == 4
    ensures ToSet(RowSequences(rows)) == ToSet(ROW_NUMBERS)
            <==> Numbered(rows, 1) && Numbered(rows, 2) && Numbered(rows, 3) && Numbered(rows, 4)
  {
    forall n: int
      ensures Numbered(rows, n) <==> n in RowSequences(rows)
    {
      NumberedExactly(rows, n);
    }
    assert NoDuplicates(ROW_NUMBERS) && |ROW_NUMBERS| == 4;
    RowNumbers();
    hide Numbered, RowSequences, NoDuplicates, ToSet, ROW_NUMBERS;
    if ToSet(RowSequences(rows)) == ToSet(ROW_NUMBERS) {
      SameElements(RowSequences(rows), ROW_NUMBERS);
    } else if forall n :: 1 <= n <= 4 ==> Numbered(rows, n) {
      ListFilled(RowSequences(rows), ROW_NUMBERS);
    }
  }

  lemma RowNumbers()
    ensures forall n :: n in ROW_NUMBERS <==> 1 <= n <= 4
  {
    assert ROW_NUMBERS[0] == 1 && ROW_NUMBERS[1] == 2 && ROW_NUMBERS[2] == 3 && ROW_NUMBERS[3] == 4;
  }

  lemma RowsExactly(rows: seq<Row>)
    ensures RowsComplete(rows) <==> RowsFilled(rows)
  {
    if |rows| == 4 {
      DimensionsExactly(rows);
      RowNumbersExactly(rows);
      assert forall i :: 0 <= i < 4 ==> rows[i] in rows;
      hide Describes, Numbered, RowDimensions, RowSequences, ToSet;
    }
  }

  lemma ActionsExactly(c: Capa)
    ensures ActionsDone(c) <==> ActionsFinished(c.actions)
  {
    if ActionsDone(c) {
      var a :| a in c.actions && !a.Dropped?;
      var i :| 0 <= i < |c.actions| && c.actions[i] == a;
      assert c.actions[i] != Dropped;
      assert forall i :: 0 <= i < |c.actions| ==> c.actions[i] in c.actions;
    }
    if ActionsFinished(c.actions) {
      var i :| 0 <= i < |c.actions| && c.actions[i] != Dropped;
      assert c.actions[i] in c.actions;
    }
  }

  lemma AnalysisExactly(c: Capa)
    ensures RootCauseComplete(c) <==> AnalysisComplete(c)
  {
    WhysExactly(c.whys);
    CausesExactly(c.causes);
    RowsExactly(c.rows);
    hide FiveWhyComplete, WhysAnswered, FishboneComplete, CausesConfirmed, RowsComplete, RowsFilled;
  }

  // ----- the workflow -----

  /** The ten workflow actions. */
  predicate Transition(x: Action) {
    || x.StartAnalysis? || x.PlanActions? || x.StartImplementation? || x.CompleteImplementation?
    || x.StartEffectivenessReview? || x.MarkEffective? || x.MarkIneffective? || x.ReopenActions? || x.Close?
    || x.Cancel?
  }

  /** What an action asks of each CAPA. */
  predicate Meets(x: Action, c: Capa, state: CapaState) {
    && (x.StartAnalysis? ==> c.prerequisites)
    && (x.PlanActions? ==> AnalysisComplete(c))
    && (x.StartImplementation? ==> |c.actions| > 0)
    && (x.CompleteImplementation? ==> ActionsFinished(c.actions))
    && (x.MarkEffective? ==> c.effectivenessNotes || !c.effectivenessRequired)
    && (x.MarkIneffective? ==> c.effectivenessNotes)
    && (x.Close? ==> state == Effective)
  }

  /** The records an action is called on. */
  function Listed(x: Action): seq<nat> {
    match x
    case StartAnalysis(ids) => ids
    case PlanActions(ids) => ids
    case StartImplementation(ids) => ids
    case CompleteImplementation(ids) => ids
    case StartEffectivenessReview(ids) => ids
    case MarkEffective(ids) => ids
    case MarkIneffective(ids) => ids
    case ReopenActions(ids) => ids
    case Close(ids) => ids
    case Cancel(ids) => ids
    case _ => []
  }

  /** The kind and the state of the event that an action writes. */
  function Written(x: Action): (Kind, CapaState)
    requires Transition(x)
  {
    match x
    case StartAnalysis(_) => (Workflow, Analysis)
    case PlanActions(_) => (Workflow, ActionPlanned)
    case StartImplementation(_) => (Workflow, Implementation)
    case CompleteImplementation(_) => (Review, EffectivenessReview)
    case StartEffectivenessReview(_) => (Review, EffectivenessReview)
    case MarkEffective(_) => (Effectiveness, Effective)
    case MarkIneffective(_) => (Effectiveness, Ineffective)
    case ReopenActions(_) => (Workflow, ActionPlanned)
    case Close(_) => (Closure, Closed)
    case Cancel(_) => (Closure, Cancelled)
  }

  lemma GuardExactly(x: Action, c: Capa, state: CapaState)
    requires Transition(x)
    ensures Guard(x, c, state) <==> Meets(x, c, state)
    ensures Goal(x) == Written(x).1 && IdsOf(x) == Listed(x)
  {
    AnalysisExactly(c);
    ActionsExactly(c);
    hide RootCauseComplete, AnalysisComplete, ActionsDone, ActionsFinished;
  }

  /** Every listed CAPA exists and meets the action's rule. */
  predicate AllMeet(s: File, x: Action) {
    forall k :: k in Listed(x) ==> k in s.capas && k in s.table.states && Meets(x, s.capas[k], s.table.states[k])
  }

  lemma AllMeetExactly(s: File, x: Action)
    requires Transition(x)
    ensures AllGuarded(s, x) <==> AllMeet(s, x)
    ensures Goal(x) == Written(x).1 && IdsOf(x) == Listed(x)
  {
    forall c: Capa, state: CapaState
      ensures Guard(x, c, state) <==> Meets(x, c, state)
      ensures Goal(x) == Written(x).1 && IdsOf(x) == Listed(x)
    {
      GuardExactly(x, c, state);
    }
    hide Guard, Meets, Goal, Written, IdsOf, Listed, Transition;
  }

  lemma WrittenSucceeds(s: File, actor: Actor, x: Action)
    requires FileOk(s) && Transition(x)
    ensures Apply(s, actor, x).Some? <==> actor.manager && AllMeet(s, x)
    ensures Apply(s, actor, x).Some? ==>
      MovedTo(s.table.states, Apply(s, actor, x).value.table.states, Listed(x), Written(x).1)
  {
    assert IsWorkflow(x);
    hide *;
    WorkflowExactly(s, actor, x);
    AllMeetExactly(s, x);
  }

  /**
   * Each workflow action succeeds exactly for a manager and known CAPAs that meet its rule; it takes them to
   * one state, keeps all else but missing slots, and logs one event a listed CAPA, of its kind.
   */
  lemma ActionsWritten(s: File, actor: Actor, x: Action)
    requires FileOk(s) && Transition(x)
    ensures Apply(s, actor, x).Some? <==> actor.manager && AllMeet(s, x)
    ensures Apply(s, actor, x).Some? ==> var t := Apply(s, actor, x).value;
      && MovedTo(s.table.states, t.table.states, Listed(x), Written(x).1)
      && LogsEach(s.table, t.table, Listed(x), Written(x).0, Written(x).1)
      && t.capas.Keys == s.capas.Keys
      && forall k :: k in s.capas ==>
           t.capas[k] == if x.StartAnalysis? && k in Listed(x) then Initialized(s.capas[k]) else s.capas[k]
  {
    WrittenSucceeds(s, actor, x);
    if Apply(s, actor, x).Some? {
      if x.StartAnalysis? {
        StartWrites(s, actor, x.ids);
      } else {
        MoveWrites(s, actor, x);
      }
    }
    hide FileOk, ApplyWorkflow, AllMeet, MovedTo, LogsEach;
  }

  lemma MoveWrites(s: File, actor: Actor, x: Action)
    requires Transition(x) && !x.StartAnalysis? && ApplyWorkflow(s, actor, x).Some?
    ensures var t := ApplyWorkflow(s, actor, x).value;
      t.capas == s.capas && LogsEach(s.table, t.table, Listed(x), Written(x).0, Written(x).1)
  {
    hide Turns, RootCauseComplete, ActionsDone, LogsEach;
    TurnsLog(Free, s.table, Listed(x), Written(x).0, Written(x).1);
  }

  lemma StartWrites(s: File, actor: Actor, ids: seq<nat>)
    requires FileOk(s) && Start(s, actor, ids).Some?
    ensures var t := Start(s, actor, ids).value;
      && t.capas.Keys == s.capas.Keys && LogsEach(s.table, t.table, ids, Workflow, Analysis)
      && forall k :: k in s.capas ==> t.capas[k] == if k in ids then Initialized(s.capas[k]) else s.capas[k]
  {
    CapasSlots(s);
    InitializeEachHolds(s.capas, ids);
    TurnsLog(Free, s.table, ids, Workflow, Analysis);
    hide InitializeEach, Turns, SlotsOk, Initialized, ValidSource, FileOk, LogsEach;
  }

  // ----- edits -----

  /** Only a draft's method and source may change, and only a draft may be deleted. */
  lemma DraftEdits(s: File, actor: Actor, k: nat, source: Source, m: Method, ids: seq<nat>)
    requires FileOk(s)
    ensures ApplyEdit(s, actor, EditMethod(k, m)).Some? <==> k in s.capas && s.table.states[k] == Draft
    ensures ApplyEdit(s, actor, EditSource(k, source)).Some?
            <==> && k in s.capas && (source == s.capas[k].source || s.table.states[k] == Draft)
                 && (source.ncr.Some? <==> source.kind == Ncr) && (source.risk.Some? <==> source.kind == Risk)
    ensures ApplyEdit(s, actor, Delete(ids)).Some?
            <==> forall x :: x in ids ==> x in s.capas && s.table.states[x] == Draft
  {
    SameRecords(s);
    SourceExactly(source);
    hide FileOk, ValidSource;
  }

  /** Conclusions may be written until implementation or once cancelled, answers until then; slots stay as they are. */
  lemma OpenEdits(s: File, actor: Actor, k: nat, i: nat, a: bool, b: bool, c: bool)
    requires FileOk(s)
    ensures ApplyEdit(s, actor, EditCause(k, a, b, c)).Some?
            <==> k in s.capas && s.table.states[k] in {Draft, Analysis, ActionPlanned, Cancelled}
    ensures ApplyEdit(s, actor, AnswerWhy(k, i, a)).Some?
            <==> k in s.capas && i < |s.capas[k].whys| && s.table.states[k] in {Draft, Analysis, ActionPlanned}
    ensures ApplyEdit(s, actor, FillRow(k, i, a, b, c)).Some?
            <==> k in s.capas && i < |s.capas[k].rows| && s.table.states[k] in {Draft, Analysis, ActionPlanned}
    ensures ApplyEdit(s, actor, AddSlot(k)) == ApplyEdit(s, actor, DeleteSlot(k)) == None
  {
    SameRecords(s);
    hide FileOk;
  }

  /** An edit of one CAPA changes the fields it names, of that CAPA, and neither states nor events. */
  predicate Edits(c: Capa, d: Capa, x: Action) {
    match x
    case EditSource(_, source) => d.source == source && d == c.(source := source)
    case EditMethod(_, m) => d.method_ == m && d == c.(method_ := m)
    case EditCause(_, analysis, rootCause, other) =>
      && d.analysis == analysis && d.rootCause == rootCause && d.otherMethod == other
      && d == c.(analysis := d.analysis, rootCause := d.rootCause, otherMethod := d.otherMethod)
    case EditRest(_, prerequisites, causes, actions, required, notes) =>
      && d.prerequisites == prerequisites && d.causes == causes && d.actions == actions
      && d.effectivenessRequired == required && d.effectivenessNotes == notes
      && d.method_ == c.method_ && d.source == c.source && d.analysis == c.analysis && d.rootCause == c.rootCause
      && d.otherMethod == c.otherMethod && d.whys == c.whys && d.rows == c.rows
    case AnswerWhy(_, i, answered) =>
      && i < |c.whys| == |d.whys| && d == c.(whys := d.whys)
      && d.whys[i].answered == answered && d.whys[i].sequence == c.whys[i].sequence
      && d.whys[i].question == c.whys[i].question
      && forall j :: 0 <= j < |c.whys| && j != i ==> d.whys[j] == c.whys[j]
    case FillRow(_, i, isValue, isNotValue, distinction) =>
      && i < |c.rows| == |d.rows| && d == c.(rows := d.rows)
      && d.rows[i] == Row(c.rows[i].dimension, c.rows[i].sequence, isValue, isNotValue, distinction)
      && forall j :: 0 <= j < |c.rows| && j != i ==> d.rows[j] == c.rows[j]
    case _ => false
  }

  lemma EditsExactly(s: File, actor: Actor, x: Action)
    requires ApplyEdit(s, actor, x).Some? && !x.Create? && !x.Delete?
    ensures var k, t := x.x, ApplyEdit(s, actor, x).value;
      && t.table == s.table && k in s.capas && t.capas.Keys == s.capas.Keys && Edits(s.capas[k], t.capas[k], x)
      && forall j :: j in s.capas && j != k ==> t.capas[j] == s.capas[j]
  {
  }

  /** A new CAPA is a draft without slots under the next number; a deletion removes the listed ones alone. */
  lemma AddsAndRemoves(s: File, actor: Actor, c: Capa, ids: seq<nat>)
    requires FileOk(s)
    ensures ApplyEdit(s, actor, Create(c)).Some? ==> var t := ApplyEdit(s, actor, Create(c)).value;
      && t.table.next == s.table.next + 1 && t.table.log == s.table.log
      && t.capas == s.capas[s.table.next := c.(whys := [], rows := [])]
      && t.table.states == s.table.states[s.table.next := Draft]
    ensures ApplyEdit(s, actor, Delete(ids)).Some? ==> var t := ApplyEdit(s, actor, Delete(ids)).value;
      && t.table.next == s.table.next && t.table.log == s.table.log
      && (forall k :: k in t.capas <==> (k in s.capas && k !in ids))
      && (forall k :: k in t.table.states <==> (k in s.table.states && k !in ids))
      && forall k :: k in t.capas ==> t.capas[k] == s.capas[k] && t.table.states[k] == s.table.states[k]
  {
    SameRecords(s);
    hide FileOk;
  }
}
