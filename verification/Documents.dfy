/** Controlled documents and their revisions (addons/pm_qms_documents/models). */
module Documents {
  import opened Common
  import opened EventLog
  import RevisionNames

  datatype RevState = Draft | UnderReview | Approved | Active | Superseded | Rejected
  datatype DocState = NewDoc | DocUnderReview | DocApproved | DocActive | DocObsolete

  datatype Revision = Revision(document: nat, name: string, date: int, state: RevState,
                               approver: Option<nat>, effective: Option<int>)

  datatype Document = Document(state: DocState, current: Option<nat>, archived: bool)

  type Revisions = map<nat, Revision>

  /** Documents by number, revisions by id, the next free id, and the state changes of revisions and of documents. */
  datatype Library = Library(documents: seq<Document>, revisions: Revisions, next: nat,
                             log: seq<Event<RevState>>, docLog: seq<Event<DocState>>)

  datatype Actor = Actor(user: nat, manager: bool, today: int)

  // ----- moving revisions -----

  datatype Move = Submit | Approve | Reject | Supersede

  predicate Movable(move: Move, state: RevState) {
    match move
    case Submit => state.Draft? || state.Rejected?
    case Approve => state.UnderReview?
    case Reject => state.UnderReview?
    case Supersede => state.Active?
  }

  function Target(move: Move): RevState {
    match move
    case Submit => UnderReview
    case Approve => Approved
    case Reject => Rejected
    case Supersede => Superseded
  }

  function KindOf(move: Move): Kind {
    match move
    case Submit => Workflow
    case Approve => Approval
    case Reject => Review
    case Supersede => Workflow
  }

  function Moved(rev: Revision, move: Move, user: nat): Revision {
    rev.(state := Target(move), approver := if move.Approve? then Some(user) else rev.approver)
  }

  function States(revs: Revisions): map<nat, RevState> {
    map r | r in revs :: revs[r].state
  }

  predicate Exist(revs: Revisions, ids: seq<nat>) { forall r :: r in ids ==> r in revs }

  /** The records of a list that an action applies to. */
  function Selected(revs: Revisions, ids: seq<nat>, move: Move): (r: seq<nat>)
    requires Exist(revs, ids)
    ensures Exist(revs, r)
  {
    if ids == [] then []
    else
      var last := ids[|ids| - 1];
      Selected(revs, ids[..|ids| - 1], move) + (if Movable(move, revs[last].state) then [last] else [])
  }

  function WriteMoved(revs: Revisions, ids: seq<nat>, move: Move, user: nat): Revisions {
    map r | r in revs :: if r in ids then Moved(revs[r], move, user) else revs[r]
  }

  /** Writes all the records at once, then logs them one by one with the states they had. */
  function MoveAll(s: Library, user: nat, move: Move, ids: seq<nat>): Library
    requires Exist(s.revisions, ids)
  {
    s.(revisions := WriteMoved(s.revisions, ids, move, user),
       log := s.log + Entries(ids, States(s.revisions), KindOf(move), Target(move)))
  }

  /** action_submit_for_review, action_approve, action_reject and action_supersede of revisions. */
  function MoveRevisions(s: Library, actor: Actor, move: Move, ids: seq<nat>): Option<Library> {
    if !actor.manager || !Exist(s.revisions, ids) then None
    else Some(MoveAll(s, actor.user, move, Selected(s.revisions, ids, move)))
  }

  // ----- the revisions of a document, newest first -----

  predicate Newer(revs: Revisions, a: nat, b: nat)
    requires a in revs && b in revs
  {
    revs[a].date > revs[b].date || (revs[a].date == revs[b].date && a > b)
  }

  function Insert(revs: Revisions, r: nat, ids: seq<nat>): (all: seq<nat>)
    requires r in revs && Exist(revs, ids)
    ensures Exist(revs, all)
  {
    if ids == [] then [r]
    else if Newer(revs, r, ids[0]) then [r] + ids
    else [ids[0]] + Insert(revs, r, ids[1..])
  }

  /** revision_ids: by date descending, then by id descending. */
  function RevisionsOf(revs: Revisions, d: nat, n: nat): (ids: seq<nat>)
    ensures Exist(revs, ids)
  {
    if n == 0 then []
    else
      var rest := RevisionsOf(revs, d, n - 1);
      if n - 1 in revs && revs[n - 1].document == d then Insert(revs, n - 1, rest) else rest
  }

  lemma {:induction false} InsertHolds(revs: Revisions, r: nat, ids: seq<nat>)
    requires r in revs && Exist(revs, ids)
    ensures forall x :: x in Insert(revs, r, ids) <==> x == r || x in ids
    ensures NoDuplicates(ids) && r !in ids ==> NoDuplicates(Insert(revs, r, ids))
  {
    if ids != [] && !Newer(revs, r, ids[0]) {
      var rest := ids[1..];
      InsertHolds(revs, r, rest);
      assert ids == [ids[0]] + rest;
      if NoDuplicates(ids) && r !in ids {
        assert NoDuplicates(rest);
        NoDuplicatesCons(ids[0], Insert(revs, r, rest));
      }
    } else if NoDuplicates(ids) && r !in ids {
      NoDuplicatesCons(r, ids);
    }
  }

  lemma {:induction false} RevisionsOfHolds(revs: Revisions, d: nat, n: nat)
    ensures NoDuplicates(RevisionsOf(revs, d, n))
    ensures forall r :: r in RevisionsOf(revs, d, n) <==> r in revs && r < n && revs[r].document == d
  {
    hide NoDuplicates, Newer;
    if n > 0 {
      RevisionsOfHolds(revs, d, n - 1);
      if n - 1 in revs && revs[n - 1].document == d {
        InsertHolds(revs, n - 1, RevisionsOf(revs, d, n - 1));
      }
    } else {
      NoDuplicatesEmpty();
    }
  }

  lemma NoDuplicatesEmpty()
    ensures NoDuplicates<nat>([])
  {
  }

  predicate Sorted(revs: Revisions, ids: seq<nat>)
    requires Exist(revs, ids)
  {
    forall i, j :: 0 <= i < j < |ids| ==> Newer(revs, ids[i], ids[j])
  }

  lemma {:induction false} InsertSorted(revs: Revisions, r: nat, ids: seq<nat>)
    requires r in revs && Exist(revs, ids) && Sorted(revs, ids) && r !in ids
    ensures Sorted(revs, Insert(revs, r, ids))
  {
    if ids != [] && !Newer(revs, r, ids[0]) {
      var rest := ids[1..];
      InsertSorted(revs, r, rest);
      InsertHolds(revs, r, rest);
      var all := Insert(revs, r, rest);
      assert ids[0] != r;
      forall x | x in all
        ensures Newer(revs, ids[0], x)
      {
        if x != r {
          var k :| 0 <= k < |rest| && rest[k] == x;
          assert Newer(revs, ids[0], ids[k + 1]);
        }
      }
      assert forall j :: 0 < j < |[ids[0]] + all| ==> ([ids[0]] + all)[j] == all[j - 1];
    } else if ids != [] {
      assert forall j :: 0 <= j < |ids| ==> Newer(revs, r, ids[j]);
    }
  }

  lemma {:induction false} RevisionsOfSorted(revs: Revisions, d: nat, n: nat)
    ensures Sorted(revs, RevisionsOf(revs, d, n))
  {
    if n > 0 {
      RevisionsOfSorted(revs, d, n - 1);
      RevisionsOfHolds(revs, d, n - 1);
      if n - 1 in revs && revs[n - 1].document == d {
        InsertSorted(revs, n - 1, RevisionsOf(revs, d, n - 1));
      }
    }
  }

  // ----- activation -----

  /** The other active revisions among a document's revisions. */
  function OtherActive(revs: Revisions, ids: seq<nat>, r: nat): (others: seq<nat>)
    requires Exist(revs, ids)
    ensures Exist(revs, others)
  {
    if ids == [] then []
    else
      var last := ids[|ids| - 1];
      OtherActive(revs, ids[..|ids| - 1], r) + (if revs[last].state.Active? && last != r then [last] else [])
  }

  predicate Activatable(state: RevState) { state.Approved? || state.Active? }

  /** The uniqueness constraint on active revisions fails for a document's revision. */
  predicate SecondActive(revs: Revisions, d: nat, r: nat) {
    exists q :: q in revs && q != r && revs[q].document == d && revs[q].state.Active?
  }

  /** The revision becomes active and its document's current one. */
  function Installed(s: Library, actor: Actor, r: nat): Library
    requires r in s.revisions && s.revisions[r].document < |s.documents|
  {
    var rev := s.revisions[r];
    var effective := if rev.effective.Some? then rev.effective else Some(actor.today);
    s.(revisions := s.revisions[r := rev.(state := Active, effective := effective)],
       documents := s.documents[rev.document := Document(DocActive, Some(r), false)],
       log := s.log + [Change(r, Approval, rev.state, Active)])
  }

  /** One turn of action_activate. */
  function ActivateOne(s: Library, actor: Actor, r: nat): Option<Library> {
    if r !in s.revisions || s.revisions[r].document >= |s.documents| || !Activatable(s.revisions[r].state) then None
    else
      var d := s.revisions[r].document;
      var t := MoveAll(s, actor.user, Supersede, OtherActive(s.revisions, RevisionsOf(s.revisions, d, s.next), r));
      if SecondActive(t.revisions, d, r) then None else Some(Installed(t, actor, r))
  }

  /** The loop of action_activate; an error in any turn rolls all of it back. */
  function ActivateEach(s: Library, actor: Actor, ids: seq<nat>): Option<Library> {
    if ids == [] then Some(s)
    else
      var t := ActivateEach(s, actor, ids[..|ids| - 1]);
      if t.None? then None else ActivateOne(t.value, actor, ids[|ids| - 1])
  }

  function ActivateRevisions(s: Library, actor: Actor, ids: seq<nat>): Option<Library> {
    if !actor.manager then None else ActivateEach(s, actor, ids)
  }

  // ----- creation and deletion -----

  predicate NameTaken(revs: Revisions, d: nat, name: string) {
    exists r :: r in revs && revs[r].document == d && revs[r].name == name
  }

  function Create(s: Library, d: nat, name: string, date: int): Option<Library> {
    if d >= |s.documents| || NameTaken(s.revisions, d, name) then None
    else Some(s.(revisions := s.revisions[s.next := Revision(d, name, date, Draft, None, None)], next := s.next + 1))
  }

  function Names(revs: Revisions, ids: seq<nat>): (names: seq<string>)
    requires Exist(revs, ids)
    ensures |names| == |ids| && forall i :: 0 <= i < |ids| ==> names[i] == revs[ids[i]].name
  {
    seq(|ids|, i requires 0 <= i < |ids| => revs[ids[i]].name)
  }

  /** action_create_new_revision */
  function CreateNext(s: Library, actor: Actor, d: nat): Option<Library> {
    if !actor.manager then None
    else
      var names := Names(s.revisions, RevisionsOf(s.revisions, d, s.next));
      Create(s, d, RevisionNames.NextRevisionName(names), actor.today)
  }

  function Unlink(s: Library, ids: seq<nat>): Option<Library> {
    if !Exist(s.revisions, ids) || exists r :: r in ids && !s.revisions[r].state.Draft? then None
    else Some(s.(revisions := map r | r in s.revisions && r !in ids :: s.revisions[r]))
  }

  // ----- document actions -----

  /** What a document action leaves its documents in, and which of their revisions it takes along. */
  function DocTarget(move: Move): DocState {
    match move
    case Submit => DocUnderReview
    case Approve => DocApproved
    case Reject => NewDoc
    case Supersede => DocObsolete
  }

  predicate TakenAlong(move: Move, state: RevState) {
    if move.Submit? then state.Draft? else Movable(move, state)
  }

  function Along(revs: Revisions, ids: seq<nat>, move: Move): (r: seq<nat>)
    requires Exist(revs, ids)
    ensures Exist(revs, r)
  {
    if ids == [] then []
    else
      var last := ids[|ids| - 1];
      Along(revs, ids[..|ids| - 1], move) + (if TakenAlong(move, revs[last].state) then [last] else [])
  }

  function WriteState(documents: seq<Document>, docs: seq<nat>, state: DocState, archived: bool): (r: seq<Document>)
    ensures |r| == |documents|
    ensures forall d :: 0 <= d < |r| ==> r[d].current == documents[d].current
  {
    seq(|documents|, d requires 0 <= d < |documents| =>
      if d in docs then documents[d].(state := state, archived := documents[d].archived || archived) else documents[d])
  }

  function DocKind(move: Move): Kind {
    match move
    case Submit => Workflow
    case Approve => Approval
    case Reject => Review
    case Supersede => Closure
  }

  function DocStates(documents: seq<Document>): (states: map<nat, DocState>)
    ensures forall d: nat :: d in states <==> d < |documents|
  {
    map d: nat | d < |documents| :: documents[d].state
  }

  /** The state of several documents at once, with one event each from the state it had. */
  function WriteDocuments(s: Library, docs: seq<nat>, kind: Kind, state: DocState, archived: bool): Library
    requires AllDocuments(s, docs)
  {
    s.(documents := WriteState(s.documents, docs, state, archived),
       docLog := s.docLog + Entries(docs, DocStates(s.documents), kind, state))
  }

  function MoveEach(s: Library, actor: Actor, move: Move, docs: seq<nat>): Option<Library> {
    if docs == [] then Some(s)
    else
      var t := MoveEach(s, actor, move, docs[..|docs| - 1]);
      if t.None? then None
      else
        var revs, d := t.value.revisions, docs[|docs| - 1];
        MoveRevisions(t.value, actor, move, Along(revs, RevisionsOf(revs, d, t.value.next), move))
  }

  predicate AllDocuments(s: Library, docs: seq<nat>) { forall d :: d in docs ==> d < |s.documents| }

  /** The document actions submit, approve and reject. */
  function MoveDocuments(s: Library, actor: Actor, move: Move, docs: seq<nat>): Option<Library> {
    if !actor.manager || move.Supersede? || !AllDocuments(s, docs) then None
    else MoveEach(WriteDocuments(s, docs, DocKind(move), DocTarget(move), false), actor, move, docs)
  }

  function FirstActivatable(revs: Revisions, ids: seq<nat>): (r: Option<nat>)
    requires Exist(revs, ids)
    ensures r.Some? ==> r.value in ids && Activatable(revs[r.value].state)
  {
    if ids == [] then None
    else if Activatable(revs[ids[0]].state) then Some(ids[0])
    else FirstActivatable(revs, ids[1..])
  }

  /** action_activate of documents: each activates its newest approved or active revision. */
  function ActivateDocuments(s: Library, actor: Actor, docs: seq<nat>): Option<Library> {
    if !actor.manager then None
    else if docs == [] then Some(s)
    else
      var t := ActivateDocuments(s, actor, docs[..|docs| - 1]);
      if t.None? then None
      else
        var revs, d := t.value.revisions, docs[|docs| - 1];
        var r := FirstActivatable(revs, RevisionsOf(revs, d, t.value.next));
        if r.None? then None else ActivateOne(t.value, actor, r.value)
  }

  function ObsoleteDocuments(s: Library, actor: Actor, docs: seq<nat>): Option<Library> {
    if !actor.manager || !AllDocuments(s, docs) then None
    else Some(WriteDocuments(s, docs, Closure, DocObsolete, true))
  }

  // ----- runs -----

  datatype Action =
    | NewDocument
    | NewRevision(document: nat, name: string, date: int)
    | NextRevision(document: nat)
    | Move(move: Move, ids: seq<nat>)
    | Activate(ids: seq<nat>)
    | Delete(ids: seq<nat>)
    | MoveDocs(move: Move, documents: seq<nat>)
    | ActivateDocs(documents: seq<nat>)
    | Obsolete(documents: seq<nat>)

  function Apply(s: Library, actor: Actor, x: Action): Option<Library> {
    match x
    case NewDocument => Some(s.(documents := s.documents + [Document(NewDoc, None, false)]))
    case NewRevision(d, name, date) => Create(s, d, name, date)
    case NextRevision(d) => CreateNext(s, actor, d)
    case Move(move, ids) => MoveRevisions(s, actor, move, ids)
    case Activate(ids) => ActivateRevisions(s, actor, ids)
    case Delete(ids) => Unlink(s, ids)
    case MoveDocs(move, docs) => MoveDocuments(s, actor, move, docs)
    case ActivateDocs(docs) => ActivateDocuments(s, actor, docs)
    case Obsolete(docs) => ObsoleteDocuments(s, actor, docs)
  }

  function Empty(): Library { Library([], map[], 0, [], []) }

  /** A run of actions; one that raises an error is rolled back. */
  function Run(steps: seq<(Actor, Action)>): Library {
    if steps == [] then Empty()
    else
      var s, step := Run(steps[..|steps| - 1]), steps[|steps| - 1];
      var t := Apply(s, step.0, step.1);
      if t.None? then s else t.value
  }
}
