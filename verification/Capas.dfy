/** Corrective actions and their fixed analysis slots (addons/pm_qms_capa/models). */
module Capas {
  import opened Common
  import opened EventLog
  import opened StateTable

  datatype CapaState =
    | Draft | Analysis | ActionPlanned | Implementation | EffectivenessReview
    | Effective | Ineffective | Closed | Cancelled

  datatype Method = FiveWhy | Fishbone | IsIsNot | OtherMethod

  datatype SourceType = Ncr | Risk | AuditFinding | CustomerIssue | SupplierIssue | ManagementDecision | OtherSource

  /** Where a CAPA comes from. */
  datatype Source = Source(kind: SourceType, reference: string, ncr: Option<nat>, risk: Option<nat>)

  datatype Why = Why(sequence: int, question: string, answered: bool)

  datatype Dimension = What | Where | When | Extent

  datatype Row = Row(dimension: Dimension, sequence: int, isValue: bool, isNotValue: bool, distinction: bool)

  datatype Cause = Cause(confirmed: bool, basis: bool, rationale: bool)

  datatype ActionStatus = Open | Completed | Verified | Dropped

  /** The texts of a CAPA count only as filled in or not. */
  datatype Capa = Capa(
    method_: Method, source: Source, prerequisites: bool,
    analysis: bool, rootCause: bool, otherMethod: bool,
    whys: seq<Why>, rows: seq<Row>, causes: seq<Cause>, actions: seq<ActionStatus>,
    effectivenessRequired: bool, effectivenessNotes: bool)

  datatype File = File(capas: map<nat, Capa>, table: Table<CapaState>)

  datatype Actor = Actor(manager: bool)

  // ----- the fixed slots -----

  function Prompt(sequence: int): string {
    if sequence == 1 then "Why did the problem occur?"
    else if sequence == 2 then "Why did the condition identified in Why 1 occur?"
    else if sequence == 3 then "Why did the condition identified in Why 2 occur?"
    else if sequence == 4 then "Why did the condition identified in Why 3 occur?"
    else "Why did the condition identified in Why 4 occur?"
  }

  predicate ValidSlot(sequence: int) { 1 <= sequence <= 5 }

  function SequenceOf(d: Dimension): int {
    match d
    case What => 1
    case Where => 2
    case When => 3
    case Extent => 4
  }

  const SLOTS: seq<int> := [1, 2, 3, 4, 5]

  const ROW_NUMBERS: seq<int> := [1, 2, 3, 4]

  const DIMENSIONS: seq<Dimension> := [What, Where, When, Extent]

  function Sequences(whys: seq<Why>): (r: seq<int>)
    ensures |r| == |whys|
  {
    seq(|whys|, i requires 0 <= i < |whys| => whys[i].sequence)
  }

  function RowDimensions(rows: seq<Row>): (r: seq<Dimension>)
    ensures |r| == |rows|
  {
    seq(|rows|, i requires 0 <= i < |rows| => rows[i].dimension)
  }

  function RowSequences(rows: seq<Row>): (r: seq<int>)
    ensures |r| == |rows|
  {
    seq(|rows|, i requires 0 <= i < |rows| => rows[i].sequence)
  }

  /** _check_integrity of the 5 Why slots of one CAPA. */
  predicate WhyIntegrity(whys: seq<Why>) {
    && (forall w :: w in whys ==> ValidSlot(w.sequence))
    && |whys| <= 5 && NoDuplicates(Sequences(whys))
  }

  /** _check_integrity of the Is / Is Not rows of one CAPA, run when it has any. */
  predicate RowIntegrity(rows: seq<Row>) {
    && (forall r :: r in rows ==> r.sequence == SequenceOf(r.dimension))
    && |rows| <= 4 && NoDuplicates(RowDimensions(rows)) && ToSet(RowSequences(rows)) == ToSet(ROW_NUMBERS)
  }

  /** The slots of a list of numbers that a CAPA does not have yet. */
  function MissingWhys(whys: seq<Why>, numbers: seq<int>): seq<int> {
    if numbers == [] then []
    else
      var last := numbers[|numbers| - 1];
      MissingWhys(whys, numbers[..|numbers| - 1]) + (if last in Sequences(whys) then [] else [last])
  }

  function MissingRows(rows: seq<Row>, dimensions: seq<Dimension>): seq<Dimension> {
    if dimensions == [] then []
    else
      var last := dimensions[|dimensions| - 1];
      MissingRows(rows, dimensions[..|dimensions| - 1]) + (if last in RowDimensions(rows) then [] else [last])
  }

  function NewWhys(numbers: seq<int>): (r: seq<Why>)
    ensures |r| == |numbers|
  {
    seq(|numbers|, i requires 0 <= i < |numbers| => Why(numbers[i], Prompt(numbers[i]), false))
  }

  function NewRows(dimensions: seq<Dimension>): (r: seq<Row>)
    ensures |r| == |dimensions|
  {
    seq(|dimensions|, i requires 0 <= i < |dimensions| =>
      Row(dimensions[i], SequenceOf(dimensions[i]), false, false, false))
  }

  /** _initialize_analysis_structure: the missing slots of the method; None when an integrity check fails. */
  function Initialize(c: Capa): Option<Capa> {
    if c.method_.FiveWhy? then
      var missing := MissingWhys(c.whys, SLOTS);
      var whys := c.whys + NewWhys(missing);
      if missing == [] then Some(c)
      else if WhyIntegrity(whys) then Some(c.(whys := whys))
      else None
    else if c.method_.IsIsNot? then
      var missing := MissingRows(c.rows, DIMENSIONS);
      var rows := c.rows + NewRows(missing);
      if missing == [] then Some(c)
      else if RowIntegrity(rows) then Some(c.(rows := rows))
      else None
    else Some(c)
  }

  // ----- checks -----

  /** _validate_source_provenance, without the company of the linked records. */
  predicate ValidSource(s: Source) {
    match s.kind
    case Ncr => s.ncr.Some? && s.risk.None?
    case Risk => s.risk.Some? && s.ncr.None?
    case _ => s.ncr.None? && s.risk.None?
  }

  predicate Answered(whys: seq<Why>, sequence: int) {
    exists i :: 0 <= i < |whys| && whys[i].sequence == sequence && whys[i].answered
  }

  /** The greatest answered slot; zero when none is. */
  function Highest(whys: seq<Why>): int {
    if whys == [] then 0
    else
      var h, last := Highest(whys[..|whys| - 1]), whys[|whys| - 1];
      if last.answered && h < last.sequence then last.sequence else h
  }

  predicate FiveWhyComplete(whys: seq<Why>) {
    && |whys| == 5 && ToSet(Sequences(whys)) == ToSet(SLOTS)
    && Answered(whys, 1)
    && forall s :: 1 <= s <= Highest(whys) ==> Answered(whys, s)
  }

  predicate FishboneComplete(causes: seq<Cause>) {
    && (exists c :: c in causes && c.confirmed)
    && (forall c :: c in causes && c.confirmed ==> c.basis && c.rationale)
  }

  predicate RowsComplete(rows: seq<Row>) {
    && |rows| == 4 && ToSet(RowDimensions(rows)) == ToSet(DIMENSIONS)
    && ToSet(RowSequences(rows)) == ToSet(ROW_NUMBERS)
    && (forall r :: r in rows ==> r.isValue && r.isNotValue && r.distinction)
  }

  /** _validate_root_cause_method */
  predicate RootCauseComplete(c: Capa) {
    && c.analysis && c.rootCause
    && match c.method_
       case FiveWhy => FiveWhyComplete(c.whys)
       case Fishbone => FishboneComplete(c.causes)
       case IsIsNot => RowsComplete(c.rows)
       case OtherMethod => c.otherMethod
  }

  predicate ActionsDone(c: Capa) {
    (exists a :: a in c.actions && !a.Dropped?) && forall a :: a in c.actions ==>
      a.Dropped? || a.Completed? || a.Verified?
  }

  // ----- actions; None is a raised error -----

  datatype Action =
    | Create(capa: Capa)
    | EditSource(x: nat, source: Source)
    | EditMethod(x: nat, method_: Method)
    | EditCause(x: nat, analysis: bool, rootCause: bool, otherMethod: bool)
    | EditRest(x: nat, prerequisites: bool, causes: seq<Cause>, actions: seq<ActionStatus>, required: bool, notes: bool)
    | AnswerWhy(x: nat, k: nat, answered: bool)
    | FillRow(x: nat, k: nat, isValue: bool, isNotValue: bool, distinction: bool)
    | AddSlot(x: nat)
    | DeleteSlot(x: nat)
    | Delete(ids: seq<nat>)
    | StartAnalysis(ids: seq<nat>)
    | PlanActions(ids: seq<nat>)
    | StartImplementation(ids: seq<nat>)
    | CompleteImplementation(ids: seq<nat>)
    | StartEffectivenessReview(ids: seq<nat>)
    | MarkEffective(ids: seq<nat>)
    | MarkIneffective(ids: seq<nat>)
    | ReopenActions(ids: seq<nat>)
    | Close(ids: seq<nat>)
    | Cancel(ids: seq<nat>)

  /** No rule: a CAPA transition only looks at the guards of its action. */
  predicate Free(from: CapaState, to: CapaState) { true }

  predicate Known(s: File, ids: seq<nat>) { forall x :: x in ids ==> x in s.capas && x in s.table.states }

  function Move(s: File, actor: Actor, ids: seq<nat>, kind: Kind, to: CapaState): Option<File> {
    if !actor.manager then None
    else
      var t := Turns(Free, s.table, ids, kind, to);
      if t.None? then None else Some(s.(table := t.value))
  }

  /** The slots are still open for answers. */
  predicate SlotsOpen(state: CapaState) { state.Draft? || state.Analysis? || state.ActionPlanned? }

  predicate CauseLocked(state: CapaState) {
    state.Implementation? || state.EffectivenessReview? || state.Effective? || state.Ineffective? || state.Closed?
  }

  /** The first loop of action_start_analysis: check and initialize each CAPA. */
  function InitializeEach(capas: map<nat, Capa>, ids: seq<nat>): Option<map<nat, Capa>> {
    if ids == [] then Some(capas)
    else
      var earlier, x := InitializeEach(capas, ids[..|ids| - 1]), ids[|ids| - 1];
      if earlier.None? || x !in earlier.value then None
      else
        var c := earlier.value[x];
        if !ValidSource(c.source) || !c.prerequisites || Initialize(c).None? then None
        else Some(earlier.value[x := Initialize(c).value])
  }

  predicate AllCapas(s: File, ids: seq<nat>, check: Capa -> bool) {
    Known(s, ids) && forall x :: x in ids ==> check(s.capas[x])
  }

  function Start(s: File, actor: Actor, ids: seq<nat>): Option<File> {
    if !actor.manager then None
    else
      var capas := InitializeEach(s.capas, ids);
      if capas.None? then None else Move(s.(capas := capas.value), actor, ids, Workflow, Analysis)
  }

  function ApplyWorkflow(s: File, actor: Actor, x: Action): Option<File> {
    match x
    case StartAnalysis(ids) => Start(s, actor, ids)
    case PlanActions(ids) =>
      if AllCapas(s, ids, RootCauseComplete) then Move(s, actor, ids, Workflow, ActionPlanned) else None
    case StartImplementation(ids) =>
      if AllCapas(s, ids, (c: Capa) => c.actions != []) then Move(s, actor, ids, Workflow, Implementation) else None
    case CompleteImplementation(ids) =>
      if AllCapas(s, ids, ActionsDone) then Move(s, actor, ids, Review, EffectivenessReview) else None
    case StartEffectivenessReview(ids) => Move(s, actor, ids, Review, EffectivenessReview)
    case MarkEffective(ids) =>
      if AllCapas(s, ids, (c: Capa) => c.effectivenessRequired ==> c.effectivenessNotes)
      then Move(s, actor, ids, Effectiveness, Effective) else None
    case MarkIneffective(ids) =>
      if AllCapas(s, ids, (c: Capa) => c.effectivenessNotes) then Move(s, actor, ids, Effectiveness, Ineffective)
      else None
    case ReopenActions(ids) => Move(s, actor, ids, Workflow, ActionPlanned)
    case Close(ids) =>
      if Known(s, ids) && (forall k :: k in ids ==> s.table.states[k].Effective?)
      then Move(s, actor, ids, Closure, Closed)
      else None
    case Cancel(ids) => Move(s, actor, ids, Closure, Cancelled)
    case _ => None
  }

  predicate Exists(s: File, x: nat) { x in s.capas && x in s.table.states }

  function Put(s: File, x: nat, c: Capa): File { s.(capas := s.capas[x := c]) }

  function ApplyEdit(s: File, actor: Actor, x: Action): Option<File> {
    match x
    case Create(c) =>
      if !ValidSource(c.source) then None
      else Some(File(s.capas[s.table.next := c.(whys := [], rows := [])], Add(s.table, Draft)))
    case EditSource(k, source) =>
      if !Exists(s, k) || !ValidSource(source) || (!s.table.states[k].Draft? && s.capas[k].source != source) then None
      else Some(Put(s, k, s.capas[k].(source := source)))
    case EditMethod(k, m) =>
      if !Exists(s, k) || !s.table.states[k].Draft? then None else Some(Put(s, k, s.capas[k].(method_ := m)))
    case EditCause(k, analysis, rootCause, otherMethod) =>
      if !Exists(s, k) || CauseLocked(s.table.states[k]) then None
      else Some(Put(s, k, s.capas[k].(analysis := analysis, rootCause := rootCause, otherMethod := otherMethod)))
    case EditRest(k, prerequisites, causes, actions, required, notes) =>
      if !Exists(s, k) then None
      else Some(Put(s, k, s.capas[k].(prerequisites := prerequisites, causes := causes, actions := actions,
                                      effectivenessRequired := required, effectivenessNotes := notes)))
    case AnswerWhy(k, i, answered) =>
      if !Exists(s, k) || i >= |s.capas[k].whys| || !SlotsOpen(s.table.states[k]) then None
      else Some(Put(s, k, s.capas[k].(whys := s.capas[k].whys[i := s.capas[k].whys[i].(answered := answered)])))
    case FillRow(k, i, isValue, isNotValue, distinction) =>
      if !Exists(s, k) || i >= |s.capas[k].rows| || !SlotsOpen(s.table.states[k]) then None
      else
        var row := s.capas[k].rows[i].(isValue := isValue, isNotValue := isNotValue, distinction := distinction);
        Some(Put(s, k, s.capas[k].(rows := s.capas[k].rows[i := row])))
    case AddSlot(_) => None
    case DeleteSlot(_) => None
    case Delete(ids) =>
      if !Known(s, ids) || exists k :: k in ids && !s.table.states[k].Draft? then None
      else Some(File(map k | k in s.capas && k !in ids :: s.capas[k], Remove(s.table, ids)))
    case _ => None
  }

  predicate IsWorkflow(x: Action) {
    x.StartAnalysis? || x.PlanActions? || x.StartImplementation? || x.CompleteImplementation?
    || x.StartEffectivenessReview?
    || x.MarkEffective? || x.MarkIneffective? || x.ReopenActions? || x.Close? || x.Cancel?
  }

  function Apply(s: File, actor: Actor, x: Action): Option<File> {
    if IsWorkflow(x) then ApplyWorkflow(s, actor, x) else ApplyEdit(s, actor, x)
  }

  function Empty(): File { File(map[], Table(map[], [], 0)) }

  /** A run of actions; one that raises an error is rolled back. */
  function Run(steps: seq<(Actor, Action)>): File {
    if steps == [] then Empty()
    else
      var s, step := Run(steps[..|steps| - 1]), steps[|steps| - 1];
      var t := Apply(s, step.0, step.1);
      if t.None? then s else t.value
  }
}
