/** Internal audits and their findings (addons/pm_qms_audit/models). */
module Audits {
  import opened Common
  import opened EventLog
  import opened StateTable

  datatype AuditState = Draft | Planned | Ready | InProgress | Reporting | Completed | Cancelled
  datatype FindingState = NewFinding | Issued | Accepted | ActionRequired | Closed | Withdrawn
  datatype Classification = Conformity | Observation | Opportunity | Nonconformity
  datatype Severity = Minor | Major | Critical

  /** What the workflow looks at in an audit: who leads it, what it covers, independence, dates, conclusion. */
  datatype Audit = Audit(lead: bool, scopes: nat, criteria: nat,
                         independenceRequired: bool, independenceConfirmed: bool, notes: bool,
                         actualStart: Option<int>, actualEnd: Option<int>, conclusion: bool)

  /** The nonconformity raised from a finding; only a draft one can be deleted. */
  datatype Ncr = NoNcr | DraftNcr | OpenedNcr

  datatype Finding = Finding(audit: nat, classification: Classification, severity: Option<Severity>,
                             closureNotes: bool, process: bool, ncr: Ncr)

  datatype Books = Books(audits: map<nat, Audit>, auditTable: Table<AuditState>,
                         findings: map<nat, Finding>, findingTable: Table<FindingState>)

  datatype Actor = Actor(manager: bool, today: int)

  /** The transition table of audits. */
  predicate AuditMay(from: AuditState, to: AuditState) {
    match to
    case Planned => from.Draft?
    case Ready => from.Planned?
    case InProgress => from.Ready?
    case Reporting => from.InProgress?
    case Completed => from.Reporting?
    case Cancelled => !from.Completed? && !from.Cancelled?
    case Draft => false
  }

  /** The transition table of findings. */
  predicate FindingMay(from: FindingState, to: FindingState) {
    match to
    case Issued => from.NewFinding?
    case Accepted => from.Issued? || from.ActionRequired?
    case ActionRequired => from.Issued? || from.Accepted?
    case Closed => from.Issued? || from.Accepted? || from.ActionRequired?
    case Withdrawn => !from.Closed? && !from.Withdrawn?
    case NewFinding => false
  }

  // ----- checks -----

  predicate ReadyRequirements(a: Audit) {
    a.lead && a.scopes > 0 && a.criteria > 0 && (if a.independenceRequired then a.independenceConfirmed else a.notes)
  }

  predicate CompletionRequirements(a: Audit) {
    a.actualStart.Some? && a.actualEnd.Some? && a.lead && a.scopes > 0 && a.criteria > 0 && a.conclusion
  }

  predicate DatesOrdered(a: Audit) {
    a.actualStart.Some? && a.actualEnd.Some? ==> a.actualStart.value <= a.actualEnd.value
  }

  predicate SeverityScope(f: Finding) { !f.classification.Nonconformity? ==> f.severity.None? }

  predicate Known<T>(records: map<nat, T>, ids: seq<nat>) { forall x :: x in ids ==> x in records }

  // ----- audit actions; None is a raised error -----

  function Started(a: Audit, today: int): Audit { a.(actualStart := Some(today)) }

  function Reported(a: Audit, today: int): Audit {
    if a.actualEnd.None? then a.(actualEnd := Some(today)) else a
  }

  function WithStart(audits: map<nat, Audit>, ids: seq<nat>, today: int): map<nat, Audit> {
    map x | x in audits :: if x in ids then Started(audits[x], today) else audits[x]
  }

  function WithEnd(audits: map<nat, Audit>, ids: seq<nat>, today: int): map<nat, Audit> {
    map x | x in audits :: if x in ids then Reported(audits[x], today) else audits[x]
  }

  function Confirmed(audits: map<nat, Audit>, ids: seq<nat>, confirmed: bool): map<nat, Audit> {
    map x | x in audits ::
      if x in ids then audits[x].(independenceRequired := confirmed, independenceConfirmed := confirmed)
                           else audits[x]
  }

  function Independence(a: Audit): string { if a.independenceConfirmed then "confirmed" else "not_confirmed" }

  /** One remark a record, with the value it had before. */
  function Remarks(t: Table<AuditState>, audits: map<nat, Audit>, ids: seq<nat>, to: string): Table<AuditState>
    requires Known(audits, ids)
  {
    if ids == [] then t
    else
      var last := ids[|ids| - 1];
      Note(Remarks(t, audits, ids[..|ids| - 1], to), last, Review, Independence(audits[last]), to)
  }

  function MoveAudits(s: Books, actor: Actor, audits: map<nat, Audit>, ids: seq<nat>, kind: Kind,
                      to: AuditState): Option<Books> {
    if !actor.manager then None
    else
      var t := Turns(AuditMay, s.auditTable, ids, kind, to);
      if t.None? then None else Some(s.(audits := audits, auditTable := t.value))
  }

  // ----- finding actions -----

  function MoveFindings(s: Books, actor: Actor, ids: seq<nat>, kind: Kind, to: FindingState): Option<Books> {
    if !actor.manager then None
    else
      var t := Turns(FindingMay, s.findingTable, ids, kind, to);
      if t.None? then None else Some(s.(findingTable := t.value))
  }

  predicate Always<S>(from: S, to: S) { true }

  predicate MayCreateNcr(s: Books, actor: Actor, x: nat) {
    && x in s.findings && x in s.findingTable.states && actor.manager
    && s.findings[x].classification.Nonconformity? && !s.findingTable.states[x].NewFinding?
    && s.findings[x].ncr.NoNcr? && s.findings[x].process
  }

  /** action_create_ncr: whatever the finding's state from issued on, it ends in action required. */
  function CreateNcr(s: Books, actor: Actor, x: nat): Option<Books> {
    if !MayCreateNcr(s, actor, x) then None
    else
      Some(s.(findings := s.findings[x := s.findings[x].(ncr := DraftNcr)],
              findingTable := Turn(Always, s.findingTable, x, Workflow, ActionRequired).value))
  }

  /** The nonconformity of a finding leaves draft, for good. */
  function OpenNcr(s: Books, x: nat): Option<Books> {
    if x !in s.findings || s.findings[x].ncr.NoNcr? then None
    else Some(s.(findings := s.findings[x := s.findings[x].(ncr := OpenedNcr)]))
  }

  /** unlink of the nonconformity of a finding. */
  function DeleteNcr(s: Books, x: nat): Option<Books> {
    if x !in s.findings || !s.findings[x].ncr.DraftNcr? then None
    else Some(s.(findings := s.findings[x := s.findings[x].(ncr := NoNcr)]))
  }

  function ClassName(c: Classification): string {
    match c
    case Conformity => "conformity"
    case Observation => "observation"
    case Opportunity => "opportunity_for_improvement"
    case Nonconformity => "nonconformity"
  }

  function EditFinding(s: Books, x: nat, f: Finding): Option<Books> {
    if x !in s.findings || f.audit !in s.audits || !SeverityScope(f) then None
    else
      var before := s.findings[x];
      var after := f.(ncr := before.ncr);
      var t := if before.classification == f.classification then s.findingTable
               else Note(s.findingTable, x, Review, ClassName(before.classification), ClassName(f.classification));
      Some(s.(findings := s.findings[x := after], findingTable := t))
  }

  // ----- actions -----

  datatype Action =
    | AddAudit(audit: Audit)
    | EditAudit(x: nat, audit: Audit)
    | DeleteAudits(ids: seq<nat>)
    | Plan(ids: seq<nat>)
    | MarkReady(ids: seq<nat>)
    | Start(ids: seq<nat>)
    | StartReporting(ids: seq<nat>)
    | Complete(ids: seq<nat>)
    | CancelAudits(ids: seq<nat>)
    | RecordIndependence(ids: seq<nat>)
    | RecordOverride(ids: seq<nat>)
    | AddFinding(finding: Finding)
    | ChangeFinding(x: nat, finding: Finding)
    | DeleteFindings(ids: seq<nat>)
    | Issue(ids: seq<nat>)
    | Accept(ids: seq<nat>)
    | RequireAction(ids: seq<nat>)
    | Close(ids: seq<nat>)
    | CancelFindings(ids: seq<nat>)
    | RaiseNcr(x: nat)
    | AdvanceNcr(x: nat)
    | DropNcr(x: nat)

  predicate InState<S(==)>(t: Table<S>, ids: seq<nat>, state: S) {
    forall x :: x in ids ==> x in t.states && t.states[x] == state
  }

  /** What a transition asks of an audit beyond its state. */
  predicate AuditGuard(x: Action, a: Audit, today: int) {
    match x
    case MarkReady(_) => ReadyRequirements(a)
    case Start(_) => DatesOrdered(Started(a, today))
    case StartReporting(_) => DatesOrdered(Reported(a, today))
    case Complete(_) => CompletionRequirements(a)
    case _ => true
  }

  predicate AllGuarded(audits: map<nat, Audit>, x: Action, ids: seq<nat>, today: int) {
    forall k :: k in ids ==> k in audits && AuditGuard(x, audits[k], today)
  }

  /** action_close of findings: every record needs closing notes. */
  predicate AllNoted(findings: map<nat, Finding>, ids: seq<nat>) {
    forall k :: k in ids ==> k in findings && findings[k].closureNotes
  }

  function ApplyAudit(s: Books, actor: Actor, x: Action): Option<Books> {
    match x
    case AddAudit(a) =>
      if !DatesOrdered(a) then None
      else Some(s.(audits := s.audits[s.auditTable.next := a], auditTable := Add(s.auditTable, Draft)))
    case EditAudit(k, a) =>
      if k !in s.audits || !DatesOrdered(a) then None else Some(s.(audits := s.audits[k := a]))
    case DeleteAudits(ids) =>
      if !InState(s.auditTable, ids, Draft) || exists f :: f in s.findings && s.findings[f].audit in ids then None
      else Some(s.(audits := map k | k in s.audits && k !in ids :: s.audits[k],
                   auditTable := Remove(s.auditTable, ids)))
    case Plan(ids) => MoveAudits(s, actor, s.audits, ids, Workflow, Planned)
    case MarkReady(ids) =>
      if !AllGuarded(s.audits, x, ids, actor.today) then None
      else MoveAudits(s, actor, s.audits, ids, Workflow, Ready)
    case Start(ids) =>
      if !AllGuarded(s.audits, x, ids, actor.today) then None
      else MoveAudits(s, actor, WithStart(s.audits, ids, actor.today), ids, Workflow, InProgress)
    case StartReporting(ids) =>
      if ids == [] then Some(s)
      else if !AllGuarded(s.audits, x, ids, actor.today) then None
      else MoveAudits(s, actor, WithEnd(s.audits, ids, actor.today), ids, Review, Reporting)
    case Complete(ids) =>
      if !AllGuarded(s.audits, x, ids, actor.today) then None
      else MoveAudits(s, actor, s.audits, ids, Closure, Completed)
    case CancelAudits(ids) => MoveAudits(s, actor, s.audits, ids, Closure, Cancelled)
    case RecordIndependence(ids) =>
      if !actor.manager || !Known(s.audits, ids) then None
      else Some(s.(audits := Confirmed(s.audits, ids, true),
                   auditTable := Remarks(s.auditTable, s.audits, ids, "confirmed")))
    case RecordOverride(ids) =>
      if !actor.manager || !Known(s.audits, ids) || exists k :: k in ids && !s.audits[k].notes then None
      else Some(s.(audits := Confirmed(s.audits, ids, false),
                   auditTable := Remarks(s.auditTable, s.audits, ids, "override")))
    case _ => None
  }

  function ApplyFinding(s: Books, actor: Actor, x: Action): Option<Books> {
    match x
    case AddFinding(f) =>
      if f.audit !in s.audits || !SeverityScope(f) then None
      else Some(s.(findings := s.findings[s.findingTable.next := f.(ncr := NoNcr)],
                   findingTable := Add(s.findingTable, NewFinding)))
    case ChangeFinding(k, f) => EditFinding(s, k, f)
    case DeleteFindings(ids) =>
      if !InState(s.findingTable, ids, NewFinding) then None
      else Some(s.(findings := map k | k in s.findings && k !in ids :: s.findings[k],
                   findingTable := Remove(s.findingTable, ids)))
    case Issue(ids) => MoveFindings(s, actor, ids, Workflow, Issued)
    case Accept(ids) => MoveFindings(s, actor, ids, Review, Accepted)
    case RequireAction(ids) => MoveFindings(s, actor, ids, Review, ActionRequired)
    case Close(ids) =>
      if !AllNoted(s.findings, ids) then None
      else MoveFindings(s, actor, ids, Closure, Closed)
    case CancelFindings(ids) => MoveFindings(s, actor, ids, Closure, Withdrawn)
    case RaiseNcr(k) => CreateNcr(s, actor, k)
    case AdvanceNcr(k) => OpenNcr(s, k)
    case DropNcr(k) => DeleteNcr(s, k)
    case _ => None
  }

  predicate OnFindings(x: Action) {
    x.AddFinding? || x.ChangeFinding? || x.DeleteFindings? || x.Issue? || x.Accept? || x.RequireAction? || x.Close?
    || x.CancelFindings? || x.RaiseNcr? || x.AdvanceNcr? || x.DropNcr?
  }

  function Apply(s: Books, actor: Actor, x: Action): Option<Books> {
    if OnFindings(x) then ApplyFinding(s, actor, x) else ApplyAudit(s, actor, x)
  }

  function Empty(): Books { Books(map[], Table(map[], [], 0), map[], Table(map[], [], 0)) }

  /** A run of actions; one that raises an error is rolled back. */
  function Run(steps: seq<(Actor, Action)>): Books {
    if steps == [] then Empty()
    else
      var s, step := Run(steps[..|steps| - 1]), steps[|steps| - 1];
      var t := Apply(s, step.0, step.1);
      if t.None? then s else t.value
  }
}
