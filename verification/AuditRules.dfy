/** Audits and findings in the words of their users: who may move what, when, and what each action writes. */
module AuditRules {
  import opened Common
  import opened EventLog
  import opened StateTable
  import opened Audits
  import opened AuditRuns

  // ----- the moves -----

  const AUDIT_MOVES: set<(AuditState, AuditState)> :=
    {(Draft, Planned), (Planned, Ready), (Ready, InProgress), (InProgress, Reporting), (Reporting, Completed),
     (Draft, Cancelled), (Planned, Cancelled), (Ready, Cancelled), (InProgress, Cancelled), (Reporting, Cancelled)}

  const FINDING_MOVES: set<(FindingState, FindingState)> :=
    {(NewFinding, Issued), (Issued, Accepted), (ActionRequired, Accepted), (Issued, ActionRequired),
     (Accepted, ActionRequired), (Issued, FindingState.Closed), (Accepted, FindingState.Closed),
     (ActionRequired, FindingState.Closed), (NewFinding, Withdrawn), (Issued, Withdrawn), (Accepted, Withdrawn),
     (ActionRequired, Withdrawn)}

  lemma AuditMovesExactly(from: AuditState, to: AuditState)
    ensures AuditMay(from, to) <==> (from, to) in AUDIT_MOVES
  {
  }

  lemma FindingMovesExactly(from: FindingState, to: FindingState)
    ensures FindingMay(from, to) <==> (from, to) in FINDING_MOVES
  {
  }

  // ----- transitions of audits -----

  predicate InOrder(start: Option<int>, end: Option<int>) {
    start == None || end == None || start.value <= end.value
  }

  /** What a transition asks of an audit: a team, a plan and independence first, dates, a conclusion at last. */
  predicate Asks(x: Action, a: Audit, today: int) {
    && (x.MarkReady? ==>
          && a.lead && a.scopes >= 1 && a.criteria >= 1
          && (a.independenceRequired ==> a.independenceConfirmed) && (!a.independenceRequired ==> a.notes))
    && (x.Start? ==> InOrder(Some(today), a.actualEnd))
    && (x.StartReporting? ==> a.actualEnd == None ==> InOrder(a.actualStart, Some(today)))
    && (x.StartReporting? ==> InOrder(a.actualStart, a.actualEnd))
    && (x.Complete? ==>
          a.actualStart != None && a.actualEnd != None && a.lead && a.scopes >= 1 && a.criteria >= 1 && a.conclusion)
  }

  /** The kind and the state of the event that a transition writes. */
  function AuditEvent(x: Action): (Kind, AuditState)
    requires IsTransition(x)
  {
    match x
    case Plan(_) => (Workflow, Planned)
    case MarkReady(_) => (Workflow, Ready)
    case Start(_) => (Workflow, InProgress)
    case StartReporting(_) => (Review, Reporting)
    case Complete(_) => (Closure, Completed)
    case CancelAudits(_) => (Closure, Cancelled)
  }

  /** What becomes of an audit itself: its start is set, its end is set unless it was. */
  predicate Dated(x: Action, a: Audit, b: Audit, today: int) {
    && b == a.(actualStart := b.actualStart, actualEnd := b.actualEnd)
    && b.actualStart == (if x.Start? then Some(today) else a.actualStart)
    && b.actualEnd == if x.StartReporting? && a.actualEnd == None then Some(today) else a.actualEnd
  }

  predicate AuditsMeet(s: Books, x: Action, today: int)
    requires IsTransition(x)
  {
    forall k :: k in x.ids ==>
      && k in s.audits && k in s.auditTable.states && (s.auditTable.states[k], AuditEvent(x).1) in AUDIT_MOVES
      && Asks(x, s.audits[k], today)
  }

  lemma AsksExactly(x: Action, a: Audit, today: int)
    requires IsTransition(x)
    ensures AuditGuard(x, a, today) <==> Asks(x, a, today)
  {
  }

  lemma AuditsMeetExactly(s: Books, x: Action, today: int)
    requires IsTransition(x)
    requires forall k :: k in s.audits <==> k in s.auditTable.states
    ensures AuditsMeet(s, x, today)
            <==> AllMayMove(s.auditTable.states, x.ids, AuditGoal(x).value) && AllGuarded(s.audits, x, x.ids, today)
  {
    assert AuditGoal(x).value == AuditEvent(x).1;
    forall a: Audit
      ensures AuditGuard(x, a, today) <==> Asks(x, a, today)
    {
      AsksExactly(x, a, today);
    }
    hide AuditGuard, Asks, AUDIT_MOVES, AuditGoal, AuditEvent;
    forall from: AuditState, to: AuditState
      ensures AuditMay(from, to) <==> (from, to) in AUDIT_MOVES
    {
      AuditMovesExactly(from, to);
    }
    hide AuditMay;
  }

  /** The audits a transition leaves. */
  function AuditsAfter(s: Books, x: Action, today: int): map<nat, Audit>
    requires IsTransition(x)
  {
    if x.Start? then WithStart(s.audits, x.ids, today)
    else if x.StartReporting? then WithEnd(s.audits, x.ids, today)
    else s.audits
  }

  lemma AuditsDated(s: Books, x: Action, today: int)
    requires IsTransition(x)
    ensures var after := AuditsAfter(s, x, today);
      && after.Keys == s.audits.Keys
      && forall k :: k in s.audits ==>
           if k in x.ids then Dated(x, s.audits[k], after[k], today) else after[k] == s.audits[k]
  {
  }

  lemma TransitionWrites(s: Books, actor: Actor, x: Action)
    requires BooksOk(s) && IsTransition(x) && Apply(s, actor, x).Some?
    ensures var t := Apply(s, actor, x).value;
      && t.audits == AuditsAfter(s, x, actor.today)
      && t.findings == s.findings && t.findingTable == s.findingTable
      && LogsEach(s.auditTable, t.auditTable, x.ids, AuditEvent(x).0, AuditEvent(x).1)
  {
    var audits := AuditsAfter(s, x, actor.today);
    var (kind, to) := AuditEvent(x);
    if NothingToReport(x) {
      assert Apply(s, actor, x) == Some(s);
      assert WithEnd(s.audits, [], actor.today) == s.audits;
    } else {
      SameAudits(s);
      TransitionMoves(s, actor, x, audits, kind);
      assert Apply(s, actor, x) == MoveAudits(s, actor, audits, x.ids, kind, to);
      hide Apply, BooksOk, AuditsAfter, AuditEvent;
      TurnsLog(AuditMay, s.auditTable, x.ids, kind, to);
    }
    hide Turns, LogsEach;
  }

  /**
   * An audit transition succeeds exactly for a manager, distinct audits in a state it starts from, and its
   * requirements met. It moves them, dates them and logs an event for each; starting to report on no audits
   * at all asks for nothing.
   */
  lemma AuditsWritten(s: Books, actor: Actor, x: Action)
    requires BooksOk(s) && IsTransition(x)
    ensures Apply(s, actor, x).Some?
            <==> x == StartReporting([]) || (actor.manager && NoDuplicates(x.ids) && AuditsMeet(s, x, actor.today))
    ensures Apply(s, actor, x).Some? ==> var t := Apply(s, actor, x).value;
      && MovedTo(s.auditTable.states, t.auditTable.states, x.ids, AuditEvent(x).1)
      && LogsEach(s.auditTable, t.auditTable, x.ids, AuditEvent(x).0, AuditEvent(x).1)
      && t.findings == s.findings && t.findingTable == s.findingTable && t.audits.Keys == s.audits.Keys
      && forall k :: k in s.audits ==>
           if k in x.ids then Dated(x, s.audits[k], t.audits[k], actor.today) else t.audits[k] == s.audits[k]
  {
    AuditWorkflowExactly(s, actor, x);
    SameAudits(s);
    AuditsMeetExactly(s, x, actor.today);
    assert AuditGoal(x).value == AuditEvent(x).1;
    if Apply(s, actor, x).Some? {
      TransitionWrites(s, actor, x);
      AuditsDated(s, x, actor.today);
    }
    hide BooksOk, Apply, AuditsMeet, AllMayMove, AllGuarded, AuditGoal, AuditEvent, MovedTo, LogsEach, Dated,
         AuditsAfter, NoDuplicates;
  }

  // ----- transitions of findings -----

  function FindingEvent(x: Action): (Kind, FindingState)
    requires FindingGoal(x).Some?
  {
    match x
    case Issue(_) => (Workflow, Issued)
    case Accept(_) => (Review, Accepted)
    case RequireAction(_) => (Review, ActionRequired)
    case Close(_) => (Closure, FindingState.Closed)
    case CancelFindings(_) => (Closure, Withdrawn)
  }

  predicate FindingsMeet(s: Books, x: Action)
    requires FindingGoal(x).Some?
  {
    forall k :: k in x.ids ==>
      && k in s.findings && k in s.findingTable.states
      && (s.findingTable.states[k], FindingEvent(x).1) in FINDING_MOVES
      && (x.Close? ==> s.findings[k].closureNotes)
  }

  lemma FindingMoveWrites(s: Books, actor: Actor, x: Action)
    requires FindingGoal(x).Some? && Apply(s, actor, x).Some?
    ensures var t := Apply(s, actor, x).value;
      && t == s.(findingTable := t.findingTable)
      && LogsEach(s.findingTable, t.findingTable, x.ids, FindingEvent(x).0, FindingEvent(x).1)
  {
    hide Turns, LogsEach, AllNoted;
    TurnsLog(FindingMay, s.findingTable, x.ids, FindingEvent(x).0, FindingEvent(x).1);
  }

  /** The condition of FindingWorkflowExactly. */
  predicate FindingsMayMove(s: Books, x: Action)
    requires FindingGoal(x).Some?
  {
    forall k :: k in x.ids ==>
      && k in s.findings && k in s.findingTable.states
      && FindingMay(s.findingTable.states[k], FindingGoal(x).value)
      && (x.Close? ==> s.findings[k].closureNotes)
  }

  lemma FindingsMeetExactly(s: Books, x: Action)
    requires FindingGoal(x).Some?
    ensures FindingsMeet(s, x) <==> FindingsMayMove(s, x)
  {
    assert FindingGoal(x).value == FindingEvent(x).1;
    hide FindingGoal, FindingEvent, FindingMay, FINDING_MOVES;
    forall from: FindingState, to: FindingState
      ensures FindingMay(from, to) <==> (from, to) in FINDING_MOVES
    {
      FindingMovesExactly(from, to);
    }
  }

  lemma FindingsSucceed(s: Books, actor: Actor, x: Action)
    requires BooksOk(s) && FindingGoal(x).Some?
    ensures Apply(s, actor, x).Some? <==> actor.manager && NoDuplicates(x.ids) && FindingsMeet(s, x)
  {
    FindingsMeetExactly(s, x);
    hide BooksOk, Apply, FindingGoal, FindingEvent, FindingMay, FINDING_MOVES, FindingsMeet, NoDuplicates;
    FindingWorkflowExactly(s, actor, x);
  }

  /** A finding transition succeeds exactly for a manager and distinct findings it applies to, and only moves. */
  lemma FindingsWritten(s: Books, actor: Actor, x: Action)
    requires BooksOk(s) && FindingGoal(x).Some?
    ensures Apply(s, actor, x).Some? <==> actor.manager && NoDuplicates(x.ids) && FindingsMeet(s, x)
    ensures Apply(s, actor, x).Some? ==> var t := Apply(s, actor, x).value;
      && MovedTo(s.findingTable.states, t.findingTable.states, x.ids, FindingEvent(x).1)
      && LogsEach(s.findingTable, t.findingTable, x.ids, FindingEvent(x).0, FindingEvent(x).1)
      && t == s.(findingTable := t.findingTable)
  {
    assert FindingGoal(x).value == FindingEvent(x).1;
    hide *;
    FindingsSucceed(s, actor, x);
    if Apply(s, actor, x).Some? {
      FindingWorkflowExactly(s, actor, x);
      FindingMoveWrites(s, actor, x);
    }
  }

  // ----- nonconformities -----

  /** One is created from an issued finding that is a nonconformity, has a process, and has none yet. */
  lemma RaiseExactly(s: Books, actor: Actor, x: nat)
    requires BooksOk(s)
    ensures Apply(s, actor, RaiseNcr(x)).Some?
            <==> && actor.manager && x in s.findings && s.findingTable.states[x] != NewFinding
                 && s.findings[x].classification == Nonconformity && s.findings[x].ncr == NoNcr && s.findings[x].process
    ensures Apply(s, actor, RaiseNcr(x)).Some? ==> var t := Apply(s, actor, RaiseNcr(x)).value;
      && t.audits == s.audits && t.auditTable == s.auditTable
      && t.findings == s.findings[x := s.findings[x].(ncr := DraftNcr)]
      && t.findingTable.next == s.findingTable.next
      && t.findingTable.states == s.findingTable.states[x := ActionRequired]
      && t.findingTable.log
         == s.findingTable.log + [Change(x, Workflow, s.findingTable.states[x], ActionRequired)]
  {
    SameFindings(s);
    hide BooksOk;
  }

  /** Opening keeps it for good; deleting takes a draft one away; neither moves the finding or writes an event. */
  lemma NcrExactly(s: Books, actor: Actor, x: nat)
    ensures Apply(s, actor, AdvanceNcr(x)).Some? <==> x in s.findings && s.findings[x].ncr != NoNcr
    ensures Apply(s, actor, DropNcr(x)).Some? <==> x in s.findings && s.findings[x].ncr == DraftNcr
    ensures Apply(s, actor, AdvanceNcr(x)).Some? ==>
      Apply(s, actor, AdvanceNcr(x)).value == s.(findings := s.findings[x := s.findings[x].(ncr := OpenedNcr)])
    ensures Apply(s, actor, DropNcr(x)).Some? ==>
      Apply(s, actor, DropNcr(x)).value == s.(findings := s.findings[x := s.findings[x].(ncr := NoNcr)])
  {
  }

  // ----- independence -----

  /** Both records of independence need a manager; the override needs notes on every audit. */
  lemma IndependenceExactly(s: Books, actor: Actor, ids: seq<nat>)
    ensures Apply(s, actor, RecordIndependence(ids)).Some? <==> actor.manager && forall k :: k in ids ==> k in s.audits
    ensures Apply(s, actor, RecordOverride(ids)).Some?
            <==> actor.manager && forall k :: k in ids ==> k in s.audits && s.audits[k].notes
  {
    hide Remarks, Confirmed;
  }

  /** One remark a listed audit, with what was said before. */
  predicate RemarksEach(t: Table<AuditState>, u: Table<AuditState>, audits: map<nat, Audit>, ids: seq<nat>,
                        to: string) {
    && u.states == t.states && u.next == t.next && |u.log| == |t.log| + |ids| && t.log <= u.log
    && forall i :: 0 <= i < |ids| ==>
         && ids[i] in audits
         && u.log[|t.log| + i]
            == Remark(ids[i], Review, if audits[ids[i]].independenceConfirmed then "confirmed" else "not_confirmed", to)
  }

  lemma {:induction false} RemarksLog(t: Table<AuditState>, audits: map<nat, Audit>, ids: seq<nat>, to: string)
    requires Known(audits, ids)
    ensures RemarksEach(t, Remarks(t, audits, ids, to), audits, ids, to)
  {
    if ids != [] {
      var fewer, last := ids[..|ids| - 1], ids[|ids| - 1];
      RemarksLog(t, audits, fewer, to);
      RemarksOneMore(t, Remarks(t, audits, fewer, to), audits, fewer, last, to);
      assert ids == fewer + [last];
      hide RemarksEach, Note, Independence;
    }
  }

  lemma RemarksOneMore(t: Table<AuditState>, u: Table<AuditState>, audits: map<nat, Audit>, ids: seq<nat>, x: nat,
                       to: string)
    requires RemarksEach(t, u, audits, ids, to) && x in audits
    ensures RemarksEach(t, Note(u, x, Review, Independence(audits[x]), to), audits, ids + [x], to)
  {
    assert forall i :: 0 <= i < |ids| ==> (ids + [x])[i] == ids[i];
  }

  /** Exactly the listed audits change, and only whether independence is required and confirmed. */
  predicate IndependenceSet(before: map<nat, Audit>, after: map<nat, Audit>, ids: seq<nat>, confirmed: bool) {
    && after.Keys == before.Keys
    && forall k :: k in before ==>
         after[k] == if k in ids
                     then before[k].(independenceRequired := confirmed, independenceConfirmed := confirmed)
                     else before[k]
  }

  lemma ConfirmedSets(audits: map<nat, Audit>, ids: seq<nat>, confirmed: bool)
    ensures IndependenceSet(audits, Confirmed(audits, ids, confirmed), ids, confirmed)
  {
  }

  lemma IndependenceApplied(s: Books, actor: Actor, x: Action)
    requires (x.RecordIndependence? || x.RecordOverride?) && Apply(s, actor, x).Some?
    ensures Known(s.audits, x.ids)
    ensures var to := if x.RecordIndependence? then "confirmed" else "override";
      Apply(s, actor, x).value == s.(audits := Confirmed(s.audits, x.ids, x.RecordIndependence?),
                                     auditTable := Remarks(s.auditTable, s.audits, x.ids, to))
  {
    hide Remarks, Confirmed;
  }

  /** Confirming requires and confirms independence, overriding does neither; all else stays. */
  lemma IndependenceWritten(s: Books, actor: Actor, x: Action)
    requires (x.RecordIndependence? || x.RecordOverride?) && Apply(s, actor, x).Some?
    ensures var t := Apply(s, actor, x).value;
      && t.findings == s.findings && t.findingTable == s.findingTable
      && IndependenceSet(s.audits, t.audits, x.ids, x.RecordIndependence?)
      && RemarksEach(s.auditTable, t.auditTable, s.audits, x.ids, if x.RecordOverride? then "override" else "confirmed")
  {
    IndependenceApplied(s, actor, x);
    hide *;
    RemarksLog(s.auditTable, s.audits, x.ids, if x.RecordOverride? then "override" else "confirmed");
    ConfirmedSets(s.audits, x.ids, x.RecordIndependence?);
  }

  // ----- records -----

  /** Audits keep their dates in order and start as drafts. */
  lemma AuditEdits(s: Books, actor: Actor, k: nat, a: Audit)
    requires BooksOk(s)
    ensures Apply(s, actor, AddAudit(a)).Some? <==> InOrder(a.actualStart, a.actualEnd)
    ensures Apply(s, actor, EditAudit(k, a)).Some? <==> k in s.audits && InOrder(a.actualStart, a.actualEnd)
    ensures Apply(s, actor, AddAudit(a)).Some? ==> var t := Apply(s, actor, AddAudit(a)).value;
      && t.findings == s.findings && t.findingTable == s.findingTable && t.auditTable.log == s.auditTable.log
      && t.auditTable.next == s.auditTable.next + 1 && t.audits == s.audits[s.auditTable.next := a]
      && t.auditTable.states == s.auditTable.states[s.auditTable.next := Draft]
    ensures Apply(s, actor, EditAudit(k, a)).Some? ==>
      Apply(s, actor, EditAudit(k, a)).value == s.(audits := s.audits[k := a])
  {
    hide BooksOk;
  }

  /** Drafts without findings alone can be deleted. */
  lemma AuditsDeleted(s: Books, actor: Actor, ids: seq<nat>)
    requires BooksOk(s)
    ensures Apply(s, actor, DeleteAudits(ids)).Some?
            <==> && (forall x :: x in ids ==> x in s.audits && s.auditTable.states[x] == Draft)
                 && forall f :: f in s.findings ==> s.findings[f].audit !in ids
    ensures Apply(s, actor, DeleteAudits(ids)).Some? ==> var t := Apply(s, actor, DeleteAudits(ids)).value;
      && t == s.(audits := t.audits, auditTable := s.auditTable.(states := t.auditTable.states))
      && (forall x :: x in t.audits <==> (x in s.audits && x !in ids))
      && (forall x :: x in t.auditTable.states <==> (x in s.auditTable.states && x !in ids))
      && forall x :: x in t.audits ==>
           x in t.auditTable.states && t.audits[x] == s.audits[x] && t.auditTable.states[x] == s.auditTable.states[x]
  {
    SameAudits(s);
    hide BooksOk;
  }

  /** Only a nonconformity has a severity. */
  predicate SeverityAllowed(f: Finding) { f.severity != None ==> f.classification == Nonconformity }

  function NameOf(c: Classification): string {
    if c == Conformity then "conformity"
    else if c == Observation then "observation"
    else if c == Opportunity then "opportunity_for_improvement"
    else "nonconformity"
  }

  /** A new finding is of a known audit and has no nonconformity yet. */
  lemma FindingAdded(s: Books, actor: Actor, f: Finding)
    ensures Apply(s, actor, AddFinding(f)).Some? <==> f.audit in s.audits && SeverityAllowed(f)
    ensures Apply(s, actor, AddFinding(f)).Some? ==> var t := Apply(s, actor, AddFinding(f)).value;
      && t.audits == s.audits && t.auditTable == s.auditTable && t.findingTable.log == s.findingTable.log
      && t.findingTable.next == s.findingTable.next + 1
      && t.findings == s.findings[s.findingTable.next := f.(ncr := NoNcr)]
      && t.findingTable.states == s.findingTable.states[s.findingTable.next := NewFinding]
  {
  }

  /** Editing a finding keeps its nonconformity and logs a change of classification. */
  lemma FindingChanged(s: Books, actor: Actor, k: nat, f: Finding)
    ensures Apply(s, actor, ChangeFinding(k, f)).Some? <==> k in s.findings && f.audit in s.audits && SeverityAllowed(f)
    ensures Apply(s, actor, ChangeFinding(k, f)).Some? ==> var t := Apply(s, actor, ChangeFinding(k, f)).value;
      && t == s.(findings := s.findings[k := f.(ncr := s.findings[k].ncr)],
                 findingTable := s.findingTable.(log := t.findingTable.log))
      && t.findingTable.log == s.findingTable.log
         + (if f.classification == s.findings[k].classification then []
            else [Remark(k, Review, NameOf(s.findings[k].classification), NameOf(f.classification))])
  {
    ClassNames();
    hide ClassName, NameOf;
  }

  lemma ClassNames()
    ensures forall c :: ClassName(c) == NameOf(c)
  {
  }

  /** Findings that were never issued alone can be deleted. */
  lemma FindingsDeleted(s: Books, actor: Actor, ids: seq<nat>)
    requires BooksOk(s)
    ensures Apply(s, actor, DeleteFindings(ids)).Some?
            <==> forall x :: x in ids ==> x in s.findings && s.findingTable.states[x] == NewFinding
    ensures Apply(s, actor, DeleteFindings(ids)).Some? ==> var t := Apply(s, actor, DeleteFindings(ids)).value;
      && t == s.(findings := t.findings, findingTable := s.findingTable.(states := t.findingTable.states))
      && (forall x :: x in t.findings <==> (x in s.findings && x !in ids))
      && (forall x :: x in t.findingTable.states <==> (x in s.findingTable.states && x !in ids))
      && forall x :: x in t.findings ==>
           && x in t.findingTable.states && t.findings[x] == s.findings[x]
           && t.findingTable.states[x] == s.findingTable.states[x]
  {
    SameFindings(s);
    hide BooksOk;
  }
}
