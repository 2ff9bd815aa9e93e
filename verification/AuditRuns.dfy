/** What every run of audit and finding actions keeps. */
module AuditRuns {
  import opened Common
  import opened EventLog
  import opened StateTable
  import opened Audits

  // ----- the path of an audit -----

  /** The state changes of one record, remarks left out. */
  function Trail<S>(log: seq<Event<S>>, x: nat): seq<(S, S)> {
    if log == [] then []
    else
      var earlier, last := Trail(log[..|log| - 1], x), log[|log| - 1];
      if last.Change? && last.record == x then earlier + [(last.previous, last.next)] else earlier
  }

  lemma TrailOne<S>(log: seq<Event<S>>, e: Event<S>, x: nat)
    ensures Trail(log + [e], x) == Trail(log, x) + (if e.Change? && e.record == x then [(e.previous, e.next)] else [])
  {
    assert (log + [e])[..|log|] == log;
  }

  lemma {:induction false} TrailNone<S>(log: seq<Event<S>>, x: nat)
    requires forall e :: e in log && e.Change? ==> e.record != x
    ensures Trail(log, x) == []
  {
    if log != [] {
      TrailNone(log[..|log| - 1], x);
    }
  }

  /** The five steps of an audit, up to a state. */
  function Path(state: AuditState): seq<(AuditState, AuditState)> {
    var all := [(Draft, Planned), (Planned, Ready), (Ready, InProgress),
                (InProgress, Reporting), (Reporting, Completed)];
    match state
    case Draft => []
    case Planned => all[..1]
    case Ready => all[..2]
    case InProgress => all[..3]
    case Reporting => all[..4]
    case Completed => all
    case Cancelled => []
  }

  /** The steps so far are the path to the state, or for a cancelled audit the path to where it was cancelled. */
  predicate OnPath(trail: seq<(AuditState, AuditState)>, state: AuditState) {
    if !state.Cancelled? then trail == Path(state)
    else
      && trail != []
      && var (from, to) := trail[|trail| - 1];
         AuditMay(from, Cancelled) && to == Cancelled && trail == Path(from) + [(from, to)]
  }

  lemma PathStep(trail: seq<(AuditState, AuditState)>, from: AuditState, to: AuditState)
    requires OnPath(trail, from) && AuditMay(from, to)
    ensures OnPath(trail + [(from, to)], to)
  {
  }

  ghost predicate AuditTableOk(t: Table<AuditState>) {
    Sound(t, Draft) && forall x :: x in t.states ==> OnPath(Trail(t.log, x), t.states[x])
  }

  lemma AuditTurnOk(t: Table<AuditState>, x: nat, kind: Kind, to: AuditState)
    requires AuditTableOk(t) && Turn(AuditMay, t, x, kind, to).Some?
    ensures AuditTableOk(Turn(AuditMay, t, x, kind, to).value)
  {
    TurnSound(AuditMay, t, x, kind, to, Draft);
    var u := Turn(AuditMay, t, x, kind, to).value;
    hide Sound, OnPath, Trail, AuditMay;
    forall y | y in u.states
      ensures OnPath(Trail(u.log, y), u.states[y])
    {
      TrailOne(t.log, Change(x, kind, t.states[x], to), y);
      if y == x {
        PathStep(Trail(t.log, x), t.states[x], to);
      } else {
        assert Trail(t.log, y) + [] == Trail(t.log, y);
      }
    }
  }

  lemma {:induction false} AuditTurnsOk(t: Table<AuditState>, ids: seq<nat>, kind: Kind, to: AuditState)
    requires AuditTableOk(t) && Turns(AuditMay, t, ids, kind, to).Some?
    ensures AuditTableOk(Turns(AuditMay, t, ids, kind, to).value)
    decreases |ids|
  {
    hide AuditTableOk, Turn;
    if ids != [] {
      AuditTurnsOk(t, ids[..|ids| - 1], kind, to);
      AuditTurnOk(Turns(AuditMay, t, ids[..|ids| - 1], kind, to).value, ids[|ids| - 1], kind, to);
    }
  }

  lemma AuditAddOk(t: Table<AuditState>)
    requires AuditTableOk(t)
    ensures AuditTableOk(Add(t, Draft))
  {
    AddSound(t, Draft);
    TrailNone(t.log, t.next);
    hide Trail, Replay;
  }

  lemma AuditRemoveOk(t: Table<AuditState>, ids: seq<nat>)
    requires AuditTableOk(t)
    ensures AuditTableOk(Remove(t, ids))
  {
    RemoveSound(t, ids, Draft);
    hide Sound, OnPath, Trail;
  }

  lemma AuditNoteOk(t: Table<AuditState>, x: nat, was: string, is_: string)
    requires AuditTableOk(t)
    ensures AuditTableOk(Note(t, x, Review, was, is_))
  {
    NoteSound(t, x, Review, was, is_, Draft);
    hide Sound, OnPath, Trail;
    forall y | y in t.states
      ensures Trail(Note(t, x, Review, was, is_).log, y) == Trail(t.log, y)
    {
      TrailOne(t.log, Remark(x, Review, was, is_), y);
    }
  }

  lemma {:induction false} RemarksOk(t: Table<AuditState>, audits: map<nat, Audit>, ids: seq<nat>, to: string)
    requires AuditTableOk(t) && Known(audits, ids)
    ensures AuditTableOk(Remarks(t, audits, ids, to)) && Remarks(t, audits, ids, to).states == t.states
  {
    hide AuditTableOk;
    if ids != [] {
      var last := ids[|ids| - 1];
      RemarksOk(t, audits, ids[..|ids| - 1], to);
      AuditNoteOk(Remarks(t, audits, ids[..|ids| - 1], to), last, Independence(audits[last]), to);
    }
  }

  // ----- findings -----

  predicate Ended(state: FindingState) { state.Closed? || state.Withdrawn? }

  /** An event that takes a record out of a closed or cancelled state. */
  predicate Reopens(e: Event<FindingState>, x: nat) { e.Change? && e.record == x && Ended(e.previous) }

  /** The event of a nonconformity created from a finding; no other change to action required has its kind. */
  predicate Raises(e: Event<FindingState>, x: nat) {
    e.Change? && e.record == x && e.kind.Workflow? && e.next.ActionRequired?
  }

  function Reopenings(log: seq<Event<FindingState>>, x: nat): nat {
    if log == [] then 0 else Reopenings(log[..|log| - 1], x) + (if Reopens(log[|log| - 1], x) then 1 else 0)
  }

  /** How many nonconformities were ever created from a record. */
  function Raised(log: seq<Event<FindingState>>, x: nat): nat {
    if log == [] then 0 else Raised(log[..|log| - 1], x) + (if Raises(log[|log| - 1], x) then 1 else 0)
  }

  lemma CountsOne(log: seq<Event<FindingState>>, e: Event<FindingState>, x: nat)
    ensures Reopenings(log + [e], x) == Reopenings(log, x) + (if Reopens(e, x) then 1 else 0)
    ensures Raised(log + [e], x) == Raised(log, x) + (if Raises(e, x) then 1 else 0)
  {
    assert (log + [e])[..|log|] == log;
  }

  lemma {:induction false} CountsNone(log: seq<Event<FindingState>>, x: nat)
    requires forall e :: e in log && e.Change? ==> e.record != x
    ensures Reopenings(log, x) == 0 && Raised(log, x) == 0
  {
    if log != [] {
      CountsNone(log[..|log| - 1], x);
    }
  }

  /** No transition of the table leaves a closed or cancelled finding, and none counts as a nonconformity. */
  lemma {:induction false} FindingTurnsCount(t: Table<FindingState>, ids: seq<nat>, kind: Kind, to: FindingState,
                                             x: nat)
    requires Turns(FindingMay, t, ids, kind, to).Some? && !(kind.Workflow? && to.ActionRequired?)
    ensures Reopenings(Turns(FindingMay, t, ids, kind, to).value.log, x) == Reopenings(t.log, x)
    ensures Raised(Turns(FindingMay, t, ids, kind, to).value.log, x) == Raised(t.log, x)
    decreases |ids|
  {
    if ids != [] {
      FindingTurnsCount(t, ids[..|ids| - 1], kind, to, x);
      var u, last := Turns(FindingMay, t, ids[..|ids| - 1], kind, to).value, ids[|ids| - 1];
      CountsOne(u.log, Change(last, kind, u.states[last], to), x);
      hide Reopenings, Raised;
    }
  }

  // ----- the books -----

  predicate FindingOk(f: Finding, audits: set<nat>) {
    f.audit in audits && SeverityScope(f)
  }

  ghost predicate FindingsOk(findings: map<nat, Finding>, audits: set<nat>, t: Table<FindingState>) {
    && Sound(t, NewFinding) && findings.Keys == t.states.Keys
    && forall x :: x in findings ==> FindingOk(findings[x], audits) && Reopenings(t.log, x) <= Raised(t.log, x)
  }

  ghost predicate AuditsOk(audits: map<nat, Audit>, t: Table<AuditState>) {
    && AuditTableOk(t) && audits.Keys == t.states.Keys
    && forall x :: x in audits ==> DatesOrdered(audits[x])
  }

  ghost predicate BooksOk(s: Books) {
    AuditsOk(s.audits, s.auditTable) && FindingsOk(s.findings, s.audits.Keys, s.findingTable)
  }

  lemma MoveAuditsOk(s: Books, actor: Actor, audits: map<nat, Audit>, ids: seq<nat>, kind: Kind, to: AuditState)
    requires BooksOk(s) && MoveAudits(s, actor, audits, ids, kind, to).Some?
    requires audits.Keys == s.audits.Keys && forall x :: x in audits ==> DatesOrdered(audits[x])
    ensures BooksOk(MoveAudits(s, actor, audits, ids, kind, to).value)
  {
    hide AuditTableOk, FindingsOk, DatesOrdered;
    AuditTurnsOk(s.auditTable, ids, kind, to);
    TurnsStates(AuditMay, s.auditTable, ids, kind, to);
  }

  lemma MoveFindingsOk(s: Books, actor: Actor, ids: seq<nat>, kind: Kind, to: FindingState)
    requires BooksOk(s) && MoveFindings(s, actor, ids, kind, to).Some? && !(kind.Workflow? && to.ActionRequired?)
    ensures BooksOk(MoveFindings(s, actor, ids, kind, to).value)
  {
    hide AuditsOk, Sound, FindingOk, Reopenings, Raised;
    TurnsSound(FindingMay, s.findingTable, ids, kind, to, NewFinding);
    TurnsStates(FindingMay, s.findingTable, ids, kind, to);
    forall x | x in s.findings
      ensures var log := MoveFindings(s, actor, ids, kind, to).value.findingTable.log;
        Reopenings(log, x) <= Raised(log, x)
    {
      FindingTurnsCount(s.findingTable, ids, kind, to, x);
    }
  }

  lemma CreateNcrOk(s: Books, actor: Actor, x: nat)
    requires BooksOk(s) && CreateNcr(s, actor, x).Some?
    ensures BooksOk(CreateNcr(s, actor, x).value)
  {
    hide AuditsOk, Sound, Reopenings, Raised;
    TurnSound(Always, s.findingTable, x, Workflow, ActionRequired, NewFinding);
    var t := CreateNcr(s, actor, x).value;
    forall y | y in t.findings
      ensures FindingOk(t.findings[y], t.audits.Keys)
      ensures Reopenings(t.findingTable.log, y) <= Raised(t.findingTable.log, y)
    {
      CountsOne(s.findingTable.log, Change(x, Workflow, s.findingTable.states[x], ActionRequired), y);
    }
  }

  /** Opening or deleting a nonconformity touches no state and no event of a finding. */
  lemma NcrOnlyOk(s: Books, x: nat, ncr: Ncr)
    requires BooksOk(s) && x in s.findings
    ensures BooksOk(s.(findings := s.findings[x := s.findings[x].(ncr := ncr)]))
  {
    hide AuditsOk, Sound, Reopenings, Raised;
    assert s.findings[x := s.findings[x].(ncr := ncr)].Keys == s.findings.Keys;
  }

  lemma EditFindingOk(s: Books, x: nat, f: Finding)
    requires BooksOk(s) && EditFinding(s, x, f).Some?
    ensures BooksOk(EditFinding(s, x, f).value)
  {
    hide AuditsOk, Sound, Reopenings, Raised, ClassName;
    var t, before := EditFinding(s, x, f).value, s.findings[x];
    NoteSound(s.findingTable, x, Review, ClassName(before.classification), ClassName(f.classification), NewFinding);
    forall y | y in t.findings
      ensures FindingOk(t.findings[y], t.audits.Keys)
      ensures Reopenings(t.findingTable.log, y) <= Raised(t.findingTable.log, y)
    {
      CountsOne(s.findingTable.log,
                Remark(x, Review, ClassName(before.classification), ClassName(f.classification)), y);
    }
  }

  lemma AddFindingOk(s: Books, actor: Actor, f: Finding)
    requires BooksOk(s) && ApplyFinding(s, actor, AddFinding(f)).Some?
    ensures BooksOk(ApplyFinding(s, actor, AddFinding(f)).value)
  {
    hide AuditsOk, Reopenings, Raised, Replay;
    AddSound(s.findingTable, NewFinding);
    CountsNone(s.findingTable.log, s.findingTable.next);
  }

  lemma DeleteFindingsOk(s: Books, actor: Actor, ids: seq<nat>)
    requires BooksOk(s) && ApplyFinding(s, actor, DeleteFindings(ids)).Some?
    ensures BooksOk(ApplyFinding(s, actor, DeleteFindings(ids)).value)
  {
    hide AuditsOk, Reopenings, Raised, Sound;
    RemoveSound(s.findingTable, ids, NewFinding);
  }

  lemma FindingActionOk(s: Books, actor: Actor, x: Action)
    requires BooksOk(s) && ApplyFinding(s, actor, x).Some?
    ensures BooksOk(ApplyFinding(s, actor, x).value)
  {
    hide BooksOk, MoveFindings, CreateNcr, EditFinding, SeverityScope, InState, Add, Remove;
    match x
    case AddFinding(f) => AddFindingOk(s, actor, f);
    case DeleteFindings(ids) => DeleteFindingsOk(s, actor, ids);
    case ChangeFinding(k, f) => EditFindingOk(s, k, f);
    case Issue(ids) => MoveFindingsOk(s, actor, ids, Workflow, Issued);
    case Accept(ids) => MoveFindingsOk(s, actor, ids, Review, Accepted);
    case RequireAction(ids) => MoveFindingsOk(s, actor, ids, Review, ActionRequired);
    case Close(ids) => MoveFindingsOk(s, actor, ids, Closure, Closed);
    case CancelFindings(ids) => MoveFindingsOk(s, actor, ids, Closure, Withdrawn);
    case RaiseNcr(k) => CreateNcrOk(s, actor, k);
    case AdvanceNcr(k) => NcrOnlyOk(s, k, OpenedNcr);
    case DropNcr(k) => NcrOnlyOk(s, k, NoNcr);
    case _ =>
  }

  lemma DeleteAuditsOk(s: Books, actor: Actor, ids: seq<nat>)
    requires BooksOk(s) && ApplyAudit(s, actor, DeleteAudits(ids)).Some?
    ensures BooksOk(ApplyAudit(s, actor, DeleteAudits(ids)).value)
  {
    hide AuditTableOk, Sound, Reopenings, Raised, DatesOrdered;
    AuditRemoveOk(s.auditTable, ids);
    var t := ApplyAudit(s, actor, DeleteAudits(ids)).value;
    forall x | x in t.findings
      ensures FindingOk(t.findings[x], t.audits.Keys)
    {
      assert FindingOk(s.findings[x], s.audits.Keys);
    }
  }

  lemma AddAuditOk(s: Books, actor: Actor, a: Audit)
    requires BooksOk(s) && ApplyAudit(s, actor, AddAudit(a)).Some?
    ensures BooksOk(ApplyAudit(s, actor, AddAudit(a)).value)
  {
    hide AuditTableOk, Sound, Reopenings, Raised, DatesOrdered;
    AuditAddOk(s.auditTable);
    var t := ApplyAudit(s, actor, AddAudit(a)).value;
    forall x | x in t.findings
      ensures FindingOk(t.findings[x], t.audits.Keys)
    {
      assert FindingOk(s.findings[x], s.audits.Keys);
    }
  }

  lemma IndependenceOk(s: Books, ids: seq<nat>, confirmed: bool, to: string)
    requires BooksOk(s) && Known(s.audits, ids)
    ensures BooksOk(s.(audits := Confirmed(s.audits, ids, confirmed),
                       auditTable := Remarks(s.auditTable, s.audits, ids, to)))
  {
    hide AuditTableOk, FindingsOk, Independence;
    RemarksOk(s.auditTable, s.audits, ids, to);
    assert Confirmed(s.audits, ids, confirmed).Keys == s.audits.Keys;
  }

  lemma EditAuditOk(s: Books, actor: Actor, k: nat, a: Audit)
    requires BooksOk(s) && ApplyAudit(s, actor, EditAudit(k, a)).Some?
    ensures BooksOk(ApplyAudit(s, actor, EditAudit(k, a)).value)
  {
    hide AuditTableOk, FindingsOk, DatesOrdered;
    assert s.audits[k := a].Keys == s.audits.Keys;
  }

  lemma MoveOnlyOk(s: Books, actor: Actor, ids: seq<nat>, kind: Kind, to: AuditState)
    requires BooksOk(s) && MoveAudits(s, actor, s.audits, ids, kind, to).Some?
    ensures BooksOk(MoveAudits(s, actor, s.audits, ids, kind, to).value)
  {
    hide AuditTableOk, FindingsOk, DatesOrdered, MoveAudits;
    MoveAuditsOk(s, actor, s.audits, ids, kind, to);
  }

  lemma StartOk(s: Books, actor: Actor, ids: seq<nat>)
    requires BooksOk(s) && ApplyAudit(s, actor, Start(ids)).Some?
    ensures BooksOk(ApplyAudit(s, actor, Start(ids)).value)
  {
    hide AuditTableOk, FindingsOk, DatesOrdered, MoveAudits, Started;
    MoveAuditsOk(s, actor, WithStart(s.audits, ids, actor.today), ids, Workflow, InProgress);
  }

  lemma StartReportingOk(s: Books, actor: Actor, ids: seq<nat>)
    requires BooksOk(s) && ApplyAudit(s, actor, StartReporting(ids)).Some?
    ensures BooksOk(ApplyAudit(s, actor, StartReporting(ids)).value)
  {
    hide AuditTableOk, FindingsOk, DatesOrdered, MoveAudits, Reported;
    if ids != [] {
      MoveAuditsOk(s, actor, WithEnd(s.audits, ids, actor.today), ids, Review, Reporting);
    }
  }

  lemma AuditActionOk(s: Books, actor: Actor, x: Action)
    requires BooksOk(s) && ApplyAudit(s, actor, x).Some?
    ensures BooksOk(ApplyAudit(s, actor, x).value)
  {
    hide BooksOk, MoveAudits, ReadyRequirements, CompletionRequirements, DatesOrdered, InState, Add, Remove, WithStart,
         WithEnd, Started, Reported, Confirmed, Remarks;
    match x
    case AddAudit(a) => AddAuditOk(s, actor, a);
    case EditAudit(k, a) => EditAuditOk(s, actor, k, a);
    case DeleteAudits(ids) => DeleteAuditsOk(s, actor, ids);
    case Plan(ids) => MoveOnlyOk(s, actor, ids, Workflow, Planned);
    case MarkReady(ids) => MoveOnlyOk(s, actor, ids, Workflow, Ready);
    case Start(ids) => StartOk(s, actor, ids);
    case StartReporting(ids) => StartReportingOk(s, actor, ids);
    case Complete(ids) => MoveOnlyOk(s, actor, ids, Closure, Completed);
    case CancelAudits(ids) => MoveOnlyOk(s, actor, ids, Closure, Cancelled);
    case RecordIndependence(ids) => IndependenceOk(s, ids, true, "confirmed");
    case RecordOverride(ids) => IndependenceOk(s, ids, false, "override");
    case _ =>
  }

  lemma EmptyOk()
    ensures BooksOk(Empty())
  {
  }

  /** In every reachable state the logs replay, audits are on their path, and findings keep their bounds. */
  lemma {:induction false} ReachableBooksOk(steps: seq<(Actor, Action)>)
    ensures BooksOk(Run(steps))
    decreases |steps|
  {
    hide BooksOk, ApplyAudit, ApplyFinding;
    if steps == [] {
      EmptyOk();
    } else {
      var s, step := Run(steps[..|steps| - 1]), steps[|steps| - 1];
      ReachableBooksOk(steps[..|steps| - 1]);
      if Apply(s, step.0, step.1).Some? {
        if OnFindings(step.1) {
          FindingActionOk(s, step.0, step.1);
        } else {
          AuditActionOk(s, step.0, step.1);
        }
      }
    }
  }

  /** A completed audit's log, without its independence remarks, is exactly the five-step path. */
  lemma CompletedAuditsPath(steps: seq<(Actor, Action)>, x: nat)
    requires x in Run(steps).auditTable.states && Run(steps).auditTable.states[x].Completed?
    ensures Trail(Run(steps).auditTable.log, x)
            == [(Draft, Planned), (Planned, Ready), (Ready, InProgress),
                (InProgress, Reporting), (Reporting, Completed)]
  {
    ReachableBooksOk(steps);
    hide Run, Trail, Sound;
  }

  // ----- reopened findings -----

  /** How many nonconformities of a finding a run deleted. */
  function Dropped(steps: seq<(Actor, Action)>, x: nat): nat {
    if steps == [] then 0
    else
      var earlier, step := steps[..|steps| - 1], steps[|steps| - 1];
      Dropped(earlier, x) + (if step.1 == DropNcr(x) && Apply(Run(earlier), step.0, step.1).Some? then 1 else 0)
  }

  function Has(f: Finding): nat { if f.ncr.NoNcr? then 0 else 1 }

  lemma AuditKeepsFindings(s: Books, actor: Actor, x: Action)
    requires ApplyAudit(s, actor, x).Some?
    ensures var t := ApplyAudit(s, actor, x).value; t.findings == s.findings && t.findingTable == s.findingTable
  {
    hide Turns, Remarks, AllGuarded, InState, Add, Remove, WithStart, WithEnd, Confirmed, DatesOrdered, Known;
  }

  lemma KnownFindings(s: Books)
    requires FindingsOk(s.findings, s.audits.Keys, s.findingTable)
    ensures forall e :: e in s.findingTable.log && e.Change? ==> e.record < s.findingTable.next
    ensures forall x :: x in s.findings ==> x < s.findingTable.next
  {
    hide Replay, Reopenings, Raised, FindingOk;
  }

  lemma CreateCounts(s: Books, actor: Actor, y: nat, k: nat)
    requires CreateNcr(s, actor, y).Some? && k in s.findings
    ensures var t := CreateNcr(s, actor, y).value;
      && t.findings.Keys == s.findings.Keys
      && Raised(t.findingTable.log, k) + Has(s.findings[k]) == Raised(s.findingTable.log, k) + Has(t.findings[k])
  {
    CountsOne(s.findingTable.log, Change(y, Workflow, s.findingTable.states[y], ActionRequired), k);
    hide Raised, Reopenings;
  }

  lemma EditCounts(s: Books, y: nat, f: Finding, k: nat)
    requires EditFinding(s, y, f).Some? && k in s.findings
    ensures var t := EditFinding(s, y, f).value;
      && t.findings.Keys == s.findings.Keys
      && Raised(t.findingTable.log, k) == Raised(s.findingTable.log, k) && Has(s.findings[k]) == Has(t.findings[k])
  {
    var from := s.findings[y].classification;
    CountsOne(s.findingTable.log, Remark(y, Review, ClassName(from), ClassName(f.classification)), k);
    hide Raised, Reopenings, ClassName, SeverityScope;
  }

  lemma KeysKept(s: Books, actor: Actor, x: Action)
    requires ApplyFinding(s, actor, x).Some? && !x.AddFinding?
    ensures ApplyFinding(s, actor, x).value.findings.Keys <= s.findings.Keys
  {
    hide Turns, ClassName, SeverityScope, AllNoted, InState, Remove, Note;
  }

  lemma AddCounts(s: Books, actor: Actor, f: Finding, k: nat)
    requires ApplyFinding(s, actor, AddFinding(f)).Some?
    requires forall e :: e in s.findingTable.log && e.Change? ==> e.record < s.findingTable.next
    requires forall x :: x in s.findings ==> x < s.findingTable.next
    ensures var t := ApplyFinding(s, actor, AddFinding(f)).value;
      && t.findingTable.log == s.findingTable.log
      && (k in t.findings && k !in s.findings ==> k == s.findingTable.next && Has(t.findings[k]) == 0)
      && (k in s.findings ==> k in t.findings && t.findings[k] == s.findings[k])
    ensures Raised(s.findingTable.log, s.findingTable.next) == 0
  {
    CountsNone(s.findingTable.log, s.findingTable.next);
    hide Raised, Reopenings, SeverityScope;
  }

  lemma NcrCounts(s: Books, x: Action, actor: Actor, k: nat)
    requires (x.AdvanceNcr? || x.DropNcr? || x.DeleteFindings?) && ApplyFinding(s, actor, x).Some?
    requires k in s.findings && k in ApplyFinding(s, actor, x).value.findings
    ensures var t := ApplyFinding(s, actor, x).value;
      && t.findingTable.log == s.findingTable.log
      && Has(s.findings[k]) == Has(t.findings[k]) + (if x == DropNcr(k) then 1 else 0)
  {
    hide InState;
  }

  /** What an action does to the count of nonconformities created from a finding, and to the one it has. */
  lemma FindingActionCounts(s: Books, actor: Actor, x: Action, k: nat)
    requires FindingsOk(s.findings, s.audits.Keys, s.findingTable) && ApplyFinding(s, actor, x).Some?
    requires k in ApplyFinding(s, actor, x).value.findings
    ensures var t := ApplyFinding(s, actor, x).value;
      if k in s.findings
      then Raised(t.findingTable.log, k) + Has(s.findings[k])
           == Raised(s.findingTable.log, k) + Has(t.findings[k]) + (if x == DropNcr(k) then 1 else 0)
      else k == s.findingTable.next && Raised(t.findingTable.log, k) == 0 && Has(t.findings[k]) == 0
  {
    KnownFindings(s);
    if x.AddFinding? {
      AddCounts(s, actor, x.finding, k);
      hide ApplyFinding, FindingsOk, Raised, Has;
    } else {
      KeysKept(s, actor, x);
      if x.AdvanceNcr? || x.DropNcr? || x.DeleteFindings? {
        NcrCounts(s, x, actor, k);
        hide ApplyFinding, FindingsOk, Raised, Has;
      } else {
        hide FindingsOk, Raised, Has, MoveFindings, CreateNcr, EditFinding, AllNoted, SeverityScope, Add, Remove,
             InState;
        match x
        case ChangeFinding(y, f) => EditCounts(s, y, f, k);
        case RaiseNcr(y) => CreateCounts(s, actor, y, k);
        case Issue(ids) => MovesCount(s, actor, ids, Workflow, Issued, k);
        case Accept(ids) => MovesCount(s, actor, ids, Review, Accepted, k);
        case RequireAction(ids) => MovesCount(s, actor, ids, Review, ActionRequired, k);
        case Close(ids) => MovesCount(s, actor, ids, Closure, Closed, k);
        case CancelFindings(ids) => MovesCount(s, actor, ids, Closure, Withdrawn, k);
      }
    }
  }

  lemma MovesCount(s: Books, actor: Actor, ids: seq<nat>, kind: Kind, to: FindingState, k: nat)
    requires MoveFindings(s, actor, ids, kind, to).Some? && !(kind.Workflow? && to.ActionRequired?)
    ensures var t := MoveFindings(s, actor, ids, kind, to).value;
      t.findings == s.findings && Raised(t.findingTable.log, k) == Raised(s.findingTable.log, k)
  {
    FindingTurnsCount(s.findingTable, ids, kind, to, k);
    hide Turns, Raised;
  }

  /** Identifiers are given out once, and only a finding that exists loses a nonconformity. */
  lemma {:induction false} DroppedOfKnown(steps: seq<(Actor, Action)>, x: nat)
    requires Run(steps).findingTable.next <= x
    ensures Dropped(steps, x) == 0 && x !in Run(steps).findings
    decreases |steps|
  {
    ReachableBooksOk(steps);
    if steps != [] {
      var earlier, step := steps[..|steps| - 1], steps[|steps| - 1];
      NextGrows(Run(earlier), step.0, step.1);
      DroppedOfKnown(earlier, x);
      hide ApplyAudit, AuditsOk, Reopenings, Raised, Replay, FindingOk;
    }
  }

  lemma NextGrows(s: Books, actor: Actor, x: Action)
    ensures Apply(s, actor, x).Some? ==> s.findingTable.next <= Apply(s, actor, x).value.findingTable.next
  {
    if Apply(s, actor, x).Some? {
      if OnFindings(x) {
        hide ClassName, SeverityScope, AllNoted;
        FindingTurnsNext(s, actor, x);
      } else {
        AuditKeepsFindings(s, actor, x);
        hide ApplyAudit;
      }
    }
  }

  lemma FindingTurnsNext(s: Books, actor: Actor, x: Action)
    requires ApplyFinding(s, actor, x).Some?
    ensures s.findingTable.next <= ApplyFinding(s, actor, x).value.findingTable.next
  {
    hide Turns, ClassName, SeverityScope, AllNoted;
    match x
    case Issue(ids) => TurnsNext(FindingMay, s.findingTable, ids, Workflow, Issued);
    case Accept(ids) => TurnsNext(FindingMay, s.findingTable, ids, Review, Accepted);
    case RequireAction(ids) => TurnsNext(FindingMay, s.findingTable, ids, Review, ActionRequired);
    case Close(ids) => TurnsNext(FindingMay, s.findingTable, ids, Closure, Closed);
    case CancelFindings(ids) => TurnsNext(FindingMay, s.findingTable, ids, Closure, Withdrawn);
    case _ =>
  }

  /** The nonconformities ever created from a finding are those that were deleted and the one it has. */
  lemma {:induction false} RaisedOnceAtATime(steps: seq<(Actor, Action)>, x: nat)
    requires x in Run(steps).findings
    ensures Raised(Run(steps).findingTable.log, x) == Dropped(steps, x) + Has(Run(steps).findings[x])
    decreases |steps|
  {
    if steps != [] {
      var earlier, step := steps[..|steps| - 1], steps[|steps| - 1];
      var s := Run(earlier);
      ReachableBooksOk(earlier);
      hide ApplyAudit, ApplyFinding, AuditsOk, FindingsOk, Raised, Has;
      if Apply(s, step.0, step.1).Some? && OnFindings(step.1) {
        FindingActionCounts(s, step.0, step.1, x);
        if x in s.findings {
          RaisedOnceAtATime(earlier, x);
        } else {
          DroppedOfKnown(earlier, x);
          DropsKnown(s, step.0, step.1, x);
        }
      } else {
        if Apply(s, step.0, step.1).Some? {
          AuditKeepsFindings(s, step.0, step.1);
        }
        RaisedOnceAtATime(earlier, x);
      }
    }
  }

  lemma DropsKnown(s: Books, actor: Actor, x: Action, k: nat)
    requires k !in s.findings && Apply(s, actor, x).Some?
    ensures x != DropNcr(k)
  {
    hide ApplyAudit;
  }

  /** A finding is reopened at most once for each nonconformity created from it, and only by creating one. */
  lemma ReopenedByNonconformities(steps: seq<(Actor, Action)>, x: nat)
    requires x in Run(steps).findings
    ensures var log := Run(steps).findingTable.log;
      Reopenings(log, x) <= Raised(log, x) == Dropped(steps, x) + Has(Run(steps).findings[x])
    ensures x in Run(steps).findingTable.states
    ensures Replay(Run(steps).findingTable.log, x, NewFinding) == Some(Run(steps).findingTable.states[x])
  {
    ReachableBooksOk(steps);
    RaisedOnceAtATime(steps, x);
    hide Run, Reopenings, Raised, Dropped, Replay, AuditsOk;
  }

  /** While none of its nonconformities is deleted a finding is reopened at most once, and then it has one. */
  lemma ReopenedAtMostOnce(steps: seq<(Actor, Action)>, x: nat)
    requires x in Run(steps).findings && Dropped(steps, x) == 0
    ensures Reopenings(Run(steps).findingTable.log, x) <= Has(Run(steps).findings[x]) <= 1
  {
    ReopenedByNonconformities(steps, x);
    hide Run, Reopenings, Raised, Dropped, Replay;
  }

  /** A closed nonconformity finding with a process and closing notes. */
  function ClosedFinding(): Books {
    Books(map[0 := Audit(true, 1, 1, false, false, true, None, None, true)], Table(map[0 := AuditState.Draft], [], 1),
          map[0 := Finding(0, Nonconformity, None, true, true, NoNcr)],
          Table(map[0 := Closed], [Change(0, Workflow, NewFinding, Issued), Change(0, Closure, Issued, Closed)], 1))
  }

  /** What raising a nonconformity from a closed finding, deleting it and closing the finding again leaves. */
  function Again(s: Books, boss: Actor): Option<Books> {
    var a := Apply(s, boss, RaiseNcr(0));
    var b := if a.None? then None else Apply(a.value, boss, DropNcr(0));
    if b.None? then None else Apply(b.value, boss, Close([0]))
  }

  lemma CloseAgain(s: Books, boss: Actor)
    requires boss.manager && 0 in s.findings && 0 in s.findingTable.states && s.findingTable.states[0] == ActionRequired
    requires s.findings[0].closureNotes
    ensures Apply(s, boss, Close([0]))
            == Some(s.(findingTable := Turn(FindingMay, s.findingTable, 0, Closure, Closed).value))
  {
    var ids: seq<nat> := [0];
    assert ids[..0] == [];
    assert Turns(FindingMay, s.findingTable, ids[..0], Closure, Closed) == Some(s.findingTable);
  }

  lemma AgainReopens(s: Books, boss: Actor)
    requires boss.manager && 0 in s.findings && 0 in s.findingTable.states && s.findingTable.states[0] == Closed
    requires s.findings[0] == Finding(0, Nonconformity, None, true, true, NoNcr)
    ensures var t := Again(s, boss);
      && t.Some? && 0 in t.value.findings && t.value.findings[0] == s.findings[0]
      && 0 in t.value.findingTable.states && t.value.findingTable.states[0] == Closed
      && Reopenings(t.value.findingTable.log, 0) == Reopenings(s.findingTable.log, 0) + 1
  {
    var log := s.findingTable.log;
    RaiseAndDrop(s, boss);
    var b := s.(findingTable := Turn(Always, s.findingTable, 0, Workflow, ActionRequired).value);
    CloseAgain(b, boss);
    CountsOne(log, Change(0, Workflow, Closed, ActionRequired), 0);
    CountsOne(log + [Change(0, Workflow, Closed, ActionRequired)], Change(0, Closure, ActionRequired, Closed), 0);
    hide Apply, Reopenings, Raised;
  }

  lemma RaiseAndDrop(s: Books, boss: Actor)
    requires boss.manager && 0 in s.findings && 0 in s.findingTable.states && s.findingTable.states[0] == Closed
    requires s.findings[0] == Finding(0, Nonconformity, None, true, true, NoNcr)
    ensures var a := Apply(s, boss, RaiseNcr(0));
      && a.Some?
      && Apply(a.value, boss, DropNcr(0))
         == Some(s.(findingTable := Turn(Always, s.findingTable, 0, Workflow, ActionRequired).value))
  {
    assert s.findings[0 := s.findings[0].(ncr := DraftNcr)][0 := s.findings[0]] == s.findings;
  }

  /** With deletions in between the same finding is reopened twice, and as often as one likes. */
  lemma ReopenedTwice()
    ensures BooksOk(ClosedFinding())
    ensures var boss := Actor(true, 0);
      var t := Again(ClosedFinding(), boss);
      && t.Some? && Again(t.value, boss).Some?
      && Reopenings(Again(t.value, boss).value.findingTable.log, 0) == 2
  {
    var s, boss := ClosedFinding(), Actor(true, 0);
    ClosedFindingOk();
    AgainReopens(s, boss);
    AgainReopens(Again(s, boss).value, boss);
    hide Again, Reopenings, BooksOk;
  }

  lemma ClosedFindingOk()
    ensures BooksOk(ClosedFinding()) && Reopenings(ClosedFinding().findingTable.log, 0) == 0
  {
    var e1: Event<FindingState>, e2: Event<FindingState> :=
      Change(0, Workflow, NewFinding, Issued), Change(0, Closure, Issued, Closed);
    var log := ClosedFinding().findingTable.log;
    assert log == [e1, e2] && [e1, e2][..1] == [e1] && [e1][..0] == [];
    assert Replay([], 0, NewFinding) == Some(NewFinding) && Replay([e1], 0, NewFinding) == Some(Issued);
  }

  /** A batch transition of audits succeeds exactly for a manager, distinct records, and moves the table lists. */
  lemma AuditBatchExactly(s: Books, actor: Actor, audits: map<nat, Audit>, ids: seq<nat>, kind: Kind, to: AuditState)
    ensures MoveAudits(s, actor, audits, ids, kind, to).Some?
            <==> (&& actor.manager && NoDuplicates(ids)
                  && forall x :: x in ids ==> x in s.auditTable.states && AuditMay(s.auditTable.states[x], to))
  {
    TurnsSucceedExactly(AuditMay, s.auditTable, ids, kind, to);
    hide Turns, NoDuplicates;
  }

  lemma FindingBatchExactly(s: Books, actor: Actor, ids: seq<nat>, kind: Kind, to: FindingState)
    ensures MoveFindings(s, actor, ids, kind, to).Some?
            <==> (&& actor.manager && NoDuplicates(ids)
                  && forall x :: x in ids ==> x in s.findingTable.states && FindingMay(s.findingTable.states[x], to))
  {
    TurnsSucceedExactly(FindingMay, s.findingTable, ids, kind, to);
    hide Turns, NoDuplicates;
  }

  lemma {:induction false} RemarksGrow(t: Table<AuditState>, audits: map<nat, Audit>, ids: seq<nat>, to: string)
    requires Known(audits, ids)
    ensures t.log <= Remarks(t, audits, ids, to).log
  {
    if ids != [] {
      RemarksGrow(t, audits, ids[..|ids| - 1], to);
    }
  }

  lemma MovesGrow(s: Books, actor: Actor, audits: map<nat, Audit>, ids: seq<nat>, kind: Kind, to: AuditState)
    ensures MoveAudits(s, actor, audits, ids, kind, to).Some? ==>
      && s.auditTable.log <= MoveAudits(s, actor, audits, ids, kind, to).value.auditTable.log
      && MoveAudits(s, actor, audits, ids, kind, to).value.findingTable == s.findingTable
  {
    if MoveAudits(s, actor, audits, ids, kind, to).Some? {
      TurnsGrow(AuditMay, s.auditTable, ids, kind, to);
    }
    hide Turns;
  }

  /** No action removes or changes an event, not even the deletion of the record it is about. */
  lemma LogsGrow(s: Books, actor: Actor, x: Action)
    requires Apply(s, actor, x).Some?
    ensures s.auditTable.log <= Apply(s, actor, x).value.auditTable.log
    ensures s.findingTable.log <= Apply(s, actor, x).value.findingTable.log
  {
    hide MoveAudits, Turns, Remarks, ReadyRequirements, CompletionRequirements, DatesOrdered, SeverityScope, Known;
    match x
    case Plan(ids) => MovesGrow(s, actor, s.audits, ids, Workflow, Planned);
    case MarkReady(ids) => MovesGrow(s, actor, s.audits, ids, Workflow, Ready);
    case Start(ids) => MovesGrow(s, actor, WithStart(s.audits, ids, actor.today), ids, Workflow, InProgress);
    case StartReporting(ids) => MovesGrow(s, actor, WithEnd(s.audits, ids, actor.today), ids, Review, Reporting);
    case Complete(ids) => MovesGrow(s, actor, s.audits, ids, Closure, Completed);
    case CancelAudits(ids) => MovesGrow(s, actor, s.audits, ids, Closure, Cancelled);
    case RecordIndependence(ids) => RemarksGrow(s.auditTable, s.audits, ids, "confirmed");
    case RecordOverride(ids) => RemarksGrow(s.auditTable, s.audits, ids, "override");
    case Issue(ids) => TurnsGrow(FindingMay, s.findingTable, ids, Workflow, Issued);
    case Accept(ids) => TurnsGrow(FindingMay, s.findingTable, ids, Review, Accepted);
    case RequireAction(ids) => TurnsGrow(FindingMay, s.findingTable, ids, Review, ActionRequired);
    case Close(ids) => TurnsGrow(FindingMay, s.findingTable, ids, Closure, Closed);
    case CancelFindings(ids) => TurnsGrow(FindingMay, s.findingTable, ids, Closure, Withdrawn);
    case _ =>
  }

  // ----- the workflows as tables -----

  /** The transitions of audits: from where, to where. */
  function AuditGoal(x: Action): Option<AuditState> {
    match x
    case Plan(_) => Some(Planned)
    case MarkReady(_) => Some(Ready)
    case Start(_) => Some(InProgress)
    case StartReporting(_) => Some(Reporting)
    case Complete(_) => Some(Completed)
    case CancelAudits(_) => Some(Cancelled)
    case _ => None
  }

  predicate IsTransition(x: Action) { AuditGoal(x).Some? }

  predicate AllMayMove(states: map<nat, AuditState>, ids: seq<nat>, to: AuditState) {
    forall x :: x in ids ==> x in states && AuditMay(states[x], to)
  }

  lemma MoveAuditsExactly(s: Books, actor: Actor, audits: map<nat, Audit>, ids: seq<nat>, kind: Kind, to: AuditState)
    ensures MoveAudits(s, actor, audits, ids, kind, to).Some?
            <==> actor.manager && NoDuplicates(ids) && AllMayMove(s.auditTable.states, ids, to)
    ensures MoveAudits(s, actor, audits, ids, kind, to).Some? ==>
      MovedTo(s.auditTable.states, MoveAudits(s, actor, audits, ids, kind, to).value.auditTable.states, ids, to)
  {
    AuditBatchExactly(s, actor, audits, ids, kind, to);
    if MoveAudits(s, actor, audits, ids, kind, to).Some? {
      TurnsStates(AuditMay, s.auditTable, ids, kind, to);
    }
    hide Turns, NoDuplicates, AuditMay, MovedTo;
  }

  /** What an audit transition does before the state table: its requirements, and the values it writes along. */
  lemma TransitionMoves(s: Books, actor: Actor, x: Action, audits: map<nat, Audit>, kind: Kind)
    requires IsTransition(x) && !NothingToReport(x) && forall k :: k in s.auditTable.states ==> k in s.audits
    requires audits == (if x.Start? then WithStart(s.audits, x.ids, actor.today)
                        else if x.StartReporting? then WithEnd(s.audits, x.ids, actor.today)
                        else s.audits)
    requires kind == if x.StartReporting? then Review else if x.Complete? || x.CancelAudits? then Closure else Workflow
    ensures var moved := MoveAudits(s, actor, audits, x.ids, kind, AuditGoal(x).value);
      && (Apply(s, actor, x).Some? ==>
            Apply(s, actor, x) == moved
            && (AllGuarded(s.audits, x, x.ids, actor.today) || x.Plan? || x.CancelAudits?))
      && (moved.Some? && AllGuarded(s.audits, x, x.ids, actor.today) ==> Apply(s, actor, x) == moved)
  {
    hide MoveAudits, ReadyRequirements, CompletionRequirements, DatesOrdered, WithStart, WithEnd, Started, Reported;
  }

  /** Reporting is started on no audits at all without any check. */
  predicate NothingToReport(x: Action) { x == StartReporting([]) }

  /**
   * An audit transition succeeds exactly for a manager, distinct audits in a listed state, and its
   * requirements met; only starting to report on no audits asks for nothing, and changes nothing.
   */
  lemma AuditWorkflowExactly(s: Books, actor: Actor, x: Action)
    requires BooksOk(s) && IsTransition(x)
    ensures Apply(s, actor, x).Some? <==>
            || NothingToReport(x)
            || (&& actor.manager && NoDuplicates(x.ids) && AllMayMove(s.auditTable.states, x.ids, AuditGoal(x).value)
                && AllGuarded(s.audits, x, x.ids, actor.today))
    ensures Apply(s, actor, x).Some? ==>
      MovedTo(s.auditTable.states, Apply(s, actor, x).value.auditTable.states, x.ids, AuditGoal(x).value)
    ensures NothingToReport(x) ==> Apply(s, actor, x) == Some(s)
  {
    if NothingToReport(x) {
      assert Apply(s, actor, x) == Some(s);
    } else {
      SameAudits(s);
      hide BooksOk, MoveAudits, NoDuplicates, AuditMay, WithStart, WithEnd, MovedTo, Apply, AuditGoal;
      var audits := if x.Start? then WithStart(s.audits, x.ids, actor.today)
                    else if x.StartReporting? then WithEnd(s.audits, x.ids, actor.today)
                    else s.audits;
      var kind := if x.StartReporting? then Review else if x.Complete? || x.CancelAudits? then Closure else Workflow;
      TransitionMoves(s, actor, x, audits, kind);
      MoveAuditsExactly(s, actor, audits, x.ids, kind, AuditGoal(x).value);
    }
  }

  lemma SameAudits(s: Books)
    requires BooksOk(s)
    ensures forall k :: k in s.audits <==> k in s.auditTable.states
  {
    hide AuditTableOk, FindingsOk, DatesOrdered;
  }

  /** The transitions of findings. */
  function FindingGoal(x: Action): Option<FindingState> {
    match x
    case Issue(_) => Some(Issued)
    case Accept(_) => Some(Accepted)
    case RequireAction(_) => Some(ActionRequired)
    case Close(_) => Some(Closed)
    case CancelFindings(_) => Some(Withdrawn)
    case _ => None
  }

  lemma MoveFindingsExactly(s: Books, actor: Actor, ids: seq<nat>, kind: Kind, to: FindingState)
    ensures MoveFindings(s, actor, ids, kind, to).Some?
            <==> (&& actor.manager && NoDuplicates(ids)
                  && forall x :: x in ids ==> x in s.findingTable.states && FindingMay(s.findingTable.states[x], to))
    ensures MoveFindings(s, actor, ids, kind, to).Some? ==>
      var t := MoveFindings(s, actor, ids, kind, to).value;
      MovedTo(s.findingTable.states, t.findingTable.states, ids, to)
  {
    FindingBatchExactly(s, actor, ids, kind, to);
    if MoveFindings(s, actor, ids, kind, to).Some? {
      TurnsStates(FindingMay, s.findingTable, ids, kind, to);
    }
    hide Turns, NoDuplicates, FindingMay, MovedTo;
  }

  /**
   * A finding transition succeeds exactly for a manager, distinct findings in a listed state, and closing
   * notes where it closes.
   */
  lemma FindingWorkflowExactly(s: Books, actor: Actor, x: Action)
    requires BooksOk(s) && FindingGoal(x).Some?
    ensures Apply(s, actor, x).Some? <==>
            (&& actor.manager && NoDuplicates(x.ids)
             && forall k :: k in x.ids ==>
                  && k in s.findings && k in s.findingTable.states
                  && FindingMay(s.findingTable.states[k], FindingGoal(x).value)
                  && (x.Close? ==> s.findings[k].closureNotes))
    ensures Apply(s, actor, x).Some? ==>
      MovedTo(s.findingTable.states, Apply(s, actor, x).value.findingTable.states, x.ids, FindingGoal(x).value)
  {
    SameFindings(s);
    hide BooksOk, MoveFindings, NoDuplicates, FindingMay, MovedTo;
    match x
    case Issue(ids) => MoveFindingsExactly(s, actor, ids, Workflow, Issued);
    case Accept(ids) => MoveFindingsExactly(s, actor, ids, Review, Accepted);
    case RequireAction(ids) => MoveFindingsExactly(s, actor, ids, Review, ActionRequired);
    case Close(ids) => MoveFindingsExactly(s, actor, ids, Closure, Closed);
    case CancelFindings(ids) => MoveFindingsExactly(s, actor, ids, Closure, Withdrawn);
    case _ =>
  }

  lemma SameFindings(s: Books)
    requires BooksOk(s)
    ensures forall k :: k in s.findings <==> k in s.findingTable.states
  {
    hide AuditsOk, Sound, FindingOk, Reopenings, Raised;
  }
}
