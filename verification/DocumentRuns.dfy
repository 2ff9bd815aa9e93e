/** What every run of workflow actions keeps about documents and revisions. */
module DocumentRuns {
  import opened Common
  import opened EventLog
  import opened Documents
  import RevisionNames

  // ----- the invariant -----

  /** One revision: known to its document; active only as the current one; signed off from approval on. */
  predicate RevisionOk(r: nat, rev: Revision, documents: seq<Document>, next: nat) {
    && r < next && rev.document < |documents|
    && (rev.state.Active? ==> documents[rev.document].current == Some(r))
    && (rev.state.Approved? || rev.state.Active? || rev.state.Superseded? ==> rev.approver.Some?)
    && (rev.state.Active? || rev.state.Superseded? ==> rev.effective.Some?)
  }

  ghost predicate RevisionsOk(revs: Revisions, documents: seq<Document>, next: nat) {
    forall r :: r in revs ==> RevisionOk(r, revs[r], documents, next)
  }

  /** A current pointer leads to a revision of that document that is or was active. */
  predicate PointerOk(d: nat, current: Option<nat>, revs: Revisions) {
    current.Some? ==>
      && current.value in revs && revs[current.value].document == d
      && (revs[current.value].state.Active? || revs[current.value].state.Superseded?)
  }

  ghost predicate PointersOk(documents: seq<Document>, revs: Revisions) {
    forall d: nat :: d < |documents| ==> PointerOk(d, documents[d].current, revs)
  }

  ghost predicate NamesOk(revs: Revisions) {
    forall q, r :: q in revs && r in revs && revs[q].document == revs[r].document && revs[q].name == revs[r].name ==>
      q == r
  }

  ghost predicate Consistent(s: Library) {
    RevisionsOk(s.revisions, s.documents, s.next) && PointersOk(s.documents, s.revisions) && NamesOk(s.revisions)
  }

  /** The log mentions only ids given out, and every revision's changes lead from draft to its state. */
  ghost predicate LogOk(s: Library) {
    && (forall e :: e in s.log && e.Change? ==> e.record < s.next)
    && (forall r :: r in s.revisions ==> Replay(s.log, r, Draft) == Some(s.revisions[r].state))
  }

  // ----- moving revisions -----

  lemma {:induction false} SelectedHolds(revs: Revisions, ids: seq<nat>, move: Documents.Move)
    requires Exist(revs, ids)
    ensures forall r :: r in Selected(revs, ids, move) <==> r in ids && Movable(move, revs[r].state)
    ensures NoDuplicates(ids) ==> NoDuplicates(Selected(revs, ids, move))
  {
    hide Movable;
    if ids != [] {
      var rest, last := ids[..|ids| - 1], ids[|ids| - 1];
      SelectedHolds(revs, rest, move);
      assert ids == rest + [last];
      if NoDuplicates(ids) {
        assert last !in rest;
        DistinctSnoc(Selected(revs, rest, move), last);
      }
    }
  }

  lemma MoveAllConsistent(s: Library, who: nat, move: Documents.Move, ids: seq<nat>)
    requires Consistent(s) && Exist(s.revisions, ids)
    requires forall r :: r in ids ==> Movable(move, s.revisions[r].state)
    ensures Consistent(MoveAll(s, who, move, ids))
  {
    var t := MoveAll(s, who, move, ids);
    forall r | r in t.revisions
      ensures RevisionOk(r, t.revisions[r], t.documents, t.next)
    {
      assert RevisionOk(r, s.revisions[r], s.documents, s.next);
    }
    forall d: nat | d < |t.documents|
      ensures PointerOk(d, t.documents[d].current, t.revisions)
    {
      assert PointerOk(d, s.documents[d].current, s.revisions);
    }
    hide RevisionOk, PointerOk;
  }

  lemma MoveAllLog(s: Library, who: nat, move: Documents.Move, ids: seq<nat>)
    requires LogOk(s) && Exist(s.revisions, ids) && NoDuplicates(ids)
    requires forall r :: r in ids ==> Movable(move, s.revisions[r].state) && r < s.next
    ensures LogOk(MoveAll(s, who, move, ids)) && s.log <= MoveAll(s, who, move, ids).log
  {
    var t := MoveAll(s, who, move, ids);
    var states, entries := States(s.revisions), Entries(ids, States(s.revisions), KindOf(move), Target(move));
    forall r | r in t.revisions
      ensures Replay(t.log, r, Draft) == Some(t.revisions[r].state)
    {
      if r in ids {
        assert Movable(move, states[r]);
        ReplayBatch(s.log, ids, states, KindOf(move), Target(move), r, Draft);
      } else {
        assert forall e :: e in entries && e.Change? ==> e.record != r;
        ReplayOthers(s.log, entries, r, Draft);
      }
    }
    hide Movable, Target, Replay;
    assert forall e :: e in entries ==> e.record in ids;
  }

  /** Writing a batch keeps the chains exactly when no record was taken twice. */
  lemma ChainsNeedDistinctRecords(s: Library, who: nat, move: Documents.Move, ids: seq<nat>)
    requires LogOk(s) && Exist(s.revisions, ids)
    requires forall r :: r in ids ==> Movable(move, s.revisions[r].state) && r < s.next
    ensures LogOk(MoveAll(s, who, move, ids)) <==> NoDuplicates(ids)
  {
    if NoDuplicates(ids) {
      MoveAllLog(s, who, move, ids);
    } else {
      var i, j :| 0 <= i < j < |ids| && ids[i] == ids[j];
      var r, states := ids[i], States(s.revisions);
      assert Movable(move, states[r]);
      ReplayEntries(s.log, ids, states, KindOf(move), Target(move), r, Draft);
      OccurringTwice(ids, i, j);
      assert Replay(MoveAll(s, who, move, ids).log, r, Draft) == None;
      assert r in MoveAll(s, who, move, ids).revisions;
    }
  }

  /** One new document with one draft revision. */
  function OneDraft(): Library {
    Library([Document(NewDoc, None, false)], map[0 := Revision(0, "01", 0, Draft, None, None)], 1, [], [])
  }

  lemma OneDraftOk()
    ensures Consistent(OneDraft()) && LogOk(OneDraft())
  {
    assert OneDraft().revisions[0].document == 0;
  }

  lemma SelectsTwice()
    ensures Selected(OneDraft().revisions, [0, 0], Submit) == [0, 0]
  {
    var ids: seq<nat> := [0, 0];
    assert ids[..1] == [0] && ids[..1][..0] == [];
    assert Selected(OneDraft().revisions, [], Submit) == [] && Selected(OneDraft().revisions, [0], Submit) == [0];
  }

  /** A concrete list that breaks a chain: one draft revision submitted twice in one call. */
  lemma RepeatBreaksChain()
    ensures Consistent(OneDraft()) && LogOk(OneDraft())
    ensures var t := MoveRevisions(OneDraft(), Actor(0, true, 0), Submit, [0, 0]);
      t.Some? && Replay(t.value.log, 0, Draft) == None && !LogOk(t.value)
  {
    var s, ids: seq<nat> := OneDraft(), [0, 0];
    OneDraftOk();
    SelectsTwice();
    assert ids[0] == ids[1];
    var t := MoveAll(s, 0, Submit, ids);
    var e: Event<RevState> := Change(0, Workflow, Draft, UnderReview);
    assert t.log == [e, e] && [e, e][..1] == [e] && [e][..0] == [];
    hide Selected, MoveAll;
    assert Replay([], 0, Draft) == Some(Draft) && Replay([e], 0, Draft) == Some(UnderReview);
    assert 0 in MoveAll(s, 0, Submit, ids).revisions by {
      MovesKeep(s, 0, Submit, ids);
    }
  }

  lemma MovesKeep(s: Library, who: nat, move: Documents.Move, ids: seq<nat>)
    requires Exist(s.revisions, ids)
    ensures MoveAll(s, who, move, ids).revisions.Keys == s.revisions.Keys
  {
  }

  lemma {:induction false} OccurringTwice(ids: seq<nat>, i: nat, j: nat)
    requires i < j < |ids| && ids[i] == ids[j]
    ensures 2 <= Occurrences(ids, ids[i])
  {
    var n := |ids| - 1;
    if j < n {
      OccurringTwice(ids[..n], i, j);
    } else {
      OccurrencesOfDistinct(ids[..n], ids[i]);
      assert ids[..n][i] == ids[i];
    }
  }

  // ----- activation -----

  lemma {:induction false} OtherActiveHolds(revs: Revisions, ids: seq<nat>, r: nat)
    requires Exist(revs, ids)
    ensures forall q :: q in OtherActive(revs, ids, r) <==> q in ids && q != r && revs[q].state.Active?
    ensures NoDuplicates(ids) ==> NoDuplicates(OtherActive(revs, ids, r))
  {
    if ids != [] {
      var rest, last := ids[..|ids| - 1], ids[|ids| - 1];
      OtherActiveHolds(revs, rest, r);
      assert ids == rest + [last];
      if NoDuplicates(ids) {
        assert last !in rest;
        DistinctSnoc(OtherActive(revs, rest, r), last);
      }
    }
  }

  /** The revisions an activation supersedes. */
  function Outgoing(s: Library, r: nat): (others: seq<nat>)
    requires r in s.revisions
    ensures Exist(s.revisions, others)
  {
    OtherActive(s.revisions, RevisionsOf(s.revisions, s.revisions[r].document, s.next), r)
  }

  lemma OutgoingHolds(s: Library, r: nat)
    requires r in s.revisions && RevisionsOk(s.revisions, s.documents, s.next)
    ensures NoDuplicates(Outgoing(s, r))
    ensures forall q :: q in Outgoing(s, r) <==>
      q in s.revisions && q != r && s.revisions[q].document == s.revisions[r].document && s.revisions[q].state.Active?
  {
    var d := s.revisions[r].document;
    RevisionsOfHolds(s.revisions, d, s.next);
    OtherActiveHolds(s.revisions, RevisionsOf(s.revisions, d, s.next), r);
    hide NoDuplicates, OtherActive, RevisionsOf;
    assert forall q :: q in s.revisions ==> RevisionOk(q, s.revisions[q], s.documents, s.next);
  }

  /** One activation never trips the uniqueness constraint: it fails only for a revision in the wrong state. */
  lemma ActivationSucceeds(s: Library, actor: Actor, r: nat)
    requires Consistent(s) && r in s.revisions && Activatable(s.revisions[r].state)
    ensures s.revisions[r].document < |s.documents|
    ensures ActivateOne(s, actor, r) == Some(Installed(MoveAll(s, actor.user, Supersede, Outgoing(s, r)), actor, r))
  {
    assert RevisionOk(r, s.revisions[r], s.documents, s.next);
    OutgoingHolds(s, r);
    hide RevisionsOf, OtherActive, Movable;
    var t := MoveAll(s, actor.user, Supersede, Outgoing(s, r));
    assert forall q :: q in t.revisions && q != r && t.revisions[q].document == s.revisions[r].document ==>
      !t.revisions[q].state.Active?;
  }

  lemma InstalledConsistent(s: Library, actor: Actor, r: nat)
    requires Consistent(s) && r in s.revisions && s.revisions[r].document < |s.documents|
    requires s.revisions[r].approver.Some?
    requires !SecondActive(s.revisions, s.revisions[r].document, r)
    ensures Consistent(Installed(s, actor, r))
  {
    var t := Installed(s, actor, r);
    forall q | q in t.revisions
      ensures RevisionOk(q, t.revisions[q], t.documents, t.next)
    {
      assert RevisionOk(q, s.revisions[q], s.documents, s.next);
    }
    forall d: nat | d < |t.documents|
      ensures PointerOk(d, t.documents[d].current, t.revisions)
    {
      assert PointerOk(d, s.documents[d].current, s.revisions);
    }
    hide RevisionOk, PointerOk;
  }

  lemma InstalledLog(s: Library, actor: Actor, r: nat)
    requires LogOk(s) && r in s.revisions && s.revisions[r].document < |s.documents| && r < s.next
    ensures LogOk(Installed(s, actor, r)) && s.log <= Installed(s, actor, r).log
  {
    var t, e := Installed(s, actor, r), Change(r, Approval, s.revisions[r].state, Active);
    forall q | q in t.revisions
      ensures Replay(t.log, q, Draft) == Some(t.revisions[q].state)
    {
      ReplayOne(s.log, e, q, Draft);
    }
    hide Replay;
  }

  lemma ActivateOneKeeps(s: Library, actor: Actor, r: nat)
    requires Consistent(s) && LogOk(s) && ActivateOne(s, actor, r).Some?
    ensures var t := ActivateOne(s, actor, r).value;
      Consistent(t) && LogOk(t) && s.log <= t.log && |t.documents| == |s.documents| && t.next == s.next
  {
    ActivationSucceeds(s, actor, r);
    OutgoingHolds(s, r);
    assert RevisionOk(r, s.revisions[r], s.documents, s.next);
    forall q | q in Outgoing(s, r)
      ensures Movable(Supersede, s.revisions[q].state) && q < s.next
    {
      assert RevisionOk(q, s.revisions[q], s.documents, s.next);
    }
    var moved := MoveAll(s, actor.user, Supersede, Outgoing(s, r));
    assert !SecondActive(moved.revisions, s.revisions[r].document, r);
    assert moved.revisions[r] == s.revisions[r] && s.revisions[r].approver.Some?;
    hide Outgoing, ActivateOne, Consistent, LogOk, NoDuplicates, Movable, RevisionOk, SecondActive;
    MoveAllConsistent(s, actor.user, Supersede, Outgoing(s, r));
    MoveAllLog(s, actor.user, Supersede, Outgoing(s, r));
    InstalledConsistent(moved, actor, r);
    InstalledLog(moved, actor, r);
  }

  // ----- every action -----

  /** What an action keeps: the invariants, the whole log so far, and the documents and ids given out. */
  ghost predicate Kept(s: Library, t: Library) {
    Consistent(t) && LogOk(t) && s.log <= t.log && |s.documents| <= |t.documents| && s.next <= t.next
  }

  lemma MoveKeeps(s: Library, actor: Actor, move: Documents.Move, ids: seq<nat>)
    requires Consistent(s) && LogOk(s) && NoDuplicates(ids) && MoveRevisions(s, actor, move, ids).Some?
    ensures Kept(s, MoveRevisions(s, actor, move, ids).value)
  {
    var selected := Selected(s.revisions, ids, move);
    SelectedHolds(s.revisions, ids, move);
    forall r | r in selected
      ensures r < s.next
    {
      assert RevisionOk(r, s.revisions[r], s.documents, s.next);
    }
    hide Consistent, LogOk, NoDuplicates, Selected, Movable;
    MoveAllConsistent(s, actor.user, move, selected);
    MoveAllLog(s, actor.user, move, selected);
  }

  lemma {:induction false} ActivateEachKeeps(s: Library, actor: Actor, ids: seq<nat>)
    requires Consistent(s) && LogOk(s) && ActivateEach(s, actor, ids).Some?
    ensures Kept(s, ActivateEach(s, actor, ids).value)
    decreases |ids|
  {
    hide Consistent, LogOk, ActivateOne;
    if ids != [] {
      ActivateEachKeeps(s, actor, ids[..|ids| - 1]);
      ActivateOneKeeps(ActivateEach(s, actor, ids[..|ids| - 1]).value, actor, ids[|ids| - 1]);
    }
  }

  lemma CreateKeeps(s: Library, d: nat, name: string, date: int)
    requires Consistent(s) && LogOk(s) && Create(s, d, name, date).Some?
    ensures Kept(s, Create(s, d, name, date).value)
  {
    var t := Create(s, d, name, date).value;
    assert forall r :: r in s.revisions ==> RevisionOk(r, s.revisions[r], s.documents, s.next);
    forall e: nat | e < |t.documents|
      ensures PointerOk(e, t.documents[e].current, t.revisions)
    {
      assert PointerOk(e, s.documents[e].current, s.revisions);
    }
    ReplayNone(s.log, s.next, Draft);
    hide Replay, PointerOk;
    assert NamesOk(t.revisions) by {
      assert !NameTaken(s.revisions, d, name);
    }
  }

  /** The next automatic name is never taken, so creating the next revision fails only without permission. */
  lemma NextRevisionIsFree(s: Library, actor: Actor, d: nat)
    requires Consistent(s)
    ensures CreateNext(s, actor, d).Some? <==> actor.manager && d < |s.documents|
  {
    var ids := RevisionsOf(s.revisions, d, s.next);
    RevisionsOfHolds(s.revisions, d, s.next);
    RevisionNames.NextIsFresh(Names(s.revisions, ids));
    hide RevisionNames.NextRevisionName, RevisionsOf;
    forall r | r in s.revisions && s.revisions[r].document == d
      ensures s.revisions[r].name in Names(s.revisions, ids)
    {
      assert RevisionOk(r, s.revisions[r], s.documents, s.next);
      var k :| 0 <= k < |ids| && ids[k] == r;
      assert Names(s.revisions, ids)[k] == s.revisions[r].name;
    }
  }

  lemma UnlinkKeeps(s: Library, ids: seq<nat>)
    requires Consistent(s) && LogOk(s) && Unlink(s, ids).Some?
    ensures Kept(s, Unlink(s, ids).value)
  {
    var t := Unlink(s, ids).value;
    forall r | r in t.revisions
      ensures RevisionOk(r, t.revisions[r], t.documents, t.next)
    {
      assert RevisionOk(r, s.revisions[r], s.documents, s.next);
    }
    forall d: nat | d < |t.documents|
      ensures PointerOk(d, t.documents[d].current, t.revisions)
    {
      assert PointerOk(d, s.documents[d].current, s.revisions);
    }
    hide RevisionOk, PointerOk, Replay;
  }

  /** Document states may change freely: the invariant only looks at current pointers. */
  lemma DocumentsKept(s: Library, documents: seq<Document>, docLog: seq<Event<DocState>>)
    requires Consistent(s) && LogOk(s) && |s.documents| <= |documents|
    requires forall d :: 0 <= d < |s.documents| ==> documents[d].current == s.documents[d].current
    requires forall d :: |s.documents| <= d < |documents| ==> documents[d].current.None?
    ensures Kept(s, s.(documents := documents, docLog := docLog))
  {
    forall r | r in s.revisions
      ensures RevisionOk(r, s.revisions[r], documents, s.next)
    {
      assert RevisionOk(r, s.revisions[r], s.documents, s.next);
    }
    forall d: nat | d < |documents|
      ensures PointerOk(d, documents[d].current, s.revisions)
    {
      if d < |s.documents| {
        assert PointerOk(d, s.documents[d].current, s.revisions);
      }
    }
    hide RevisionOk, PointerOk, Replay;
  }

  lemma {:induction false} AlongHolds(revs: Revisions, ids: seq<nat>, move: Documents.Move)
    requires Exist(revs, ids)
    ensures forall r :: r in Along(revs, ids, move) <==> r in ids && TakenAlong(move, revs[r].state)
    ensures NoDuplicates(ids) ==> NoDuplicates(Along(revs, ids, move))
  {
    hide TakenAlong;
    if ids != [] {
      var rest, last := ids[..|ids| - 1], ids[|ids| - 1];
      AlongHolds(revs, rest, move);
      assert ids == rest + [last];
      if NoDuplicates(ids) {
        assert last !in rest;
        DistinctSnoc(Along(revs, rest, move), last);
      }
    }
  }

  lemma {:induction false} MoveEachKeeps(s: Library, actor: Actor, move: Documents.Move, docs: seq<nat>)
    requires Consistent(s) && LogOk(s) && MoveEach(s, actor, move, docs).Some?
    ensures Kept(s, MoveEach(s, actor, move, docs).value)
    decreases |docs|
  {
    hide Consistent, LogOk, NoDuplicates, RevisionsOf, MoveRevisions, Along;
    if docs != [] {
      MoveEachKeeps(s, actor, move, docs[..|docs| - 1]);
      var t, d := MoveEach(s, actor, move, docs[..|docs| - 1]).value, docs[|docs| - 1];
      RevisionsOfHolds(t.revisions, d, t.next);
      AlongHolds(t.revisions, RevisionsOf(t.revisions, d, t.next), move);
      MoveKeeps(t, actor, move, Along(t.revisions, RevisionsOf(t.revisions, d, t.next), move));
    }
  }

  lemma {:induction false} ActivateDocumentsKeeps(s: Library, actor: Actor, docs: seq<nat>)
    requires Consistent(s) && LogOk(s) && ActivateDocuments(s, actor, docs).Some?
    ensures Kept(s, ActivateDocuments(s, actor, docs).value)
    decreases |docs|
  {
    hide Consistent, LogOk, ActivateOne, RevisionsOf, FirstActivatable;
    if docs != [] {
      ActivateDocumentsKeeps(s, actor, docs[..|docs| - 1]);
      var t, d := ActivateDocuments(s, actor, docs[..|docs| - 1]).value, docs[|docs| - 1];
      ActivateOneKeeps(t, actor, FirstActivatable(t.revisions, RevisionsOf(t.revisions, d, t.next)).value);
    }
  }

  /** A record set holds no record twice; only lists that do can break a chain. */
  predicate DistinctRecords(x: Action) {
    x.Move? ==> NoDuplicates(x.ids)
  }

  lemma ApplyKeeps(s: Library, actor: Actor, x: Action)
    requires Consistent(s) && LogOk(s) && DistinctRecords(x) && Apply(s, actor, x).Some?
    ensures Kept(s, Apply(s, actor, x).value)
  {
    hide Consistent, LogOk, NoDuplicates, MoveRevisions, ActivateEach, Create, Unlink, MoveEach, ActivateDocuments,
         WriteState;
    match x
    case NewDocument => DocumentsKept(s, s.documents + [Document(NewDoc, None, false)], s.docLog);
    case NewRevision(d, name, date) => CreateKeeps(s, d, name, date);
    case NextRevision(d) =>
      var names := Names(s.revisions, RevisionsOf(s.revisions, d, s.next));
      CreateKeeps(s, d, RevisionNames.NextRevisionName(names), actor.today);
    case Move(move, ids) => MoveKeeps(s, actor, move, ids);
    case Activate(ids) => ActivateEachKeeps(s, actor, ids);
    case Delete(ids) => UnlinkKeeps(s, ids);
    case MoveDocs(move, docs) =>
      var written := WriteDocuments(s, docs, DocKind(move), DocTarget(move), false);
      DocumentsKept(s, written.documents, written.docLog);
      MoveEachKeeps(written, actor, move, docs);
    case ActivateDocs(docs) => ActivateDocumentsKeeps(s, actor, docs);
    case Obsolete(docs) =>
      var written := WriteDocuments(s, docs, Closure, DocObsolete, true);
      DocumentsKept(s, written.documents, written.docLog);
  }

  lemma EmptyOk()
    ensures Consistent(Empty()) && LogOk(Empty())
  {
  }

  /** In every reachable library the pointers are right, and the log replays to every revision's state. */
  lemma {:induction false} ReachableIsConsistent(steps: seq<(Actor, Action)>)
    requires forall step :: step in steps ==> DistinctRecords(step.1)
    ensures Consistent(Run(steps)) && LogOk(Run(steps))
    decreases |steps|
  {
    hide Consistent, LogOk, Apply, DistinctRecords;
    if steps == [] {
      EmptyOk();
    } else {
      var earlier, step := steps[..|steps| - 1], steps[|steps| - 1];
      ReachableIsConsistent(earlier);
      if Apply(Run(earlier), step.0, step.1).Some? {
        ApplyKeeps(Run(earlier), step.0, step.1);
      }
    }
  }

  /** Hence a document never has two active revisions. */
  lemma OneActiveRevision(steps: seq<(Actor, Action)>, q: nat, r: nat)
    requires forall step :: step in steps ==> DistinctRecords(step.1)
    requires q in Run(steps).revisions && Run(steps).revisions[q].state.Active?
    requires r in Run(steps).revisions && Run(steps).revisions[r].state.Active?
    requires Run(steps).revisions[q].document == Run(steps).revisions[r].document
    ensures q == r
  {
    ReachableIsConsistent(steps);
    hide Run, LogOk;
    var s := Run(steps);
    assert RevisionOk(q, s.revisions[q], s.documents, s.next);
    assert RevisionOk(r, s.revisions[r], s.documents, s.next);
  }

  // ----- batch activation -----

  /** The last of a list that belongs to a document. */
  function Winner(revs: Revisions, ids: seq<nat>, d: nat): (w: Option<nat>)
    ensures w.Some? ==> w.value in ids && w.value in revs && revs[w.value].document == d
    ensures w.None? ==> forall r :: r in ids && r in revs ==> revs[r].document != d
  {
    if ids == [] then None
    else
      var n := |ids| - 1;
      if ids[n] in revs && revs[ids[n]].document == d then Some(ids[n]) else Winner(revs, ids[..n], d)
  }

  /** A revision's state after a batch: the winner of its document is active, what it outdates superseded. */
  function StateAfter(revs: Revisions, ids: seq<nat>, r: nat): RevState
    requires r in revs
  {
    var w := Winner(revs, ids, revs[r].document);
    if w.None? then revs[r].state
    else if w.value == r then Active
    else if revs[r].state.Active? || r in ids then Superseded
    else revs[r].state
  }

  lemma ActivateOneStates(s: Library, actor: Actor, r: nat)
    requires Consistent(s) && ActivateOne(s, actor, r).Some?
    ensures var t := ActivateOne(s, actor, r).value;
      && t.revisions.Keys == s.revisions.Keys
      && (forall q :: q in s.revisions ==>
            && t.revisions[q].document == s.revisions[q].document
            && t.revisions[q].state
               == if q == r then Active
                  else if s.revisions[q].document == s.revisions[r].document && s.revisions[q].state.Active?
                  then Superseded
                  else s.revisions[q].state)
      && |t.documents| == |s.documents|
      && forall d: nat :: d < |s.documents| ==>
           t.documents[d].current == if d == s.revisions[r].document then Some(r) else s.documents[d].current
  {
    ActivationSucceeds(s, actor, r);
    OutgoingHolds(s, r);
    hide ActivateOne, Outgoing, NoDuplicates, Consistent;
  }

  predicate StatesAre(revs: Revisions, ids: seq<nat>, after: Revisions) {
    && after.Keys == revs.Keys
    && forall q :: q in revs ==> after[q].document == revs[q].document && after[q].state == StateAfter(revs, ids, q)
  }

  predicate CurrentsAre(s: Library, ids: seq<nat>, documents: seq<Document>) {
    && |documents| == |s.documents|
    && forall d: nat :: d < |documents| ==>
         var w := Winner(s.revisions, ids, d);
         documents[d].current == if w.Some? then w else s.documents[d].current
  }

  lemma StateAfterStep(revs: Revisions, ids: seq<nat>, r: nat, q: nat)
    requires q in revs && r in revs
    ensures StateAfter(revs, ids + [r], q)
            == if q == r then Active
               else if revs[q].document == revs[r].document && StateAfter(revs, ids, q).Active? then Superseded
               else StateAfter(revs, ids, q)
  {
    assert (ids + [r])[..|ids|] == ids;
  }

  /** After a successful batch, exactly the last revision listed of each document is active and current. */
  lemma {:induction false} BatchActivates(s: Library, actor: Actor, ids: seq<nat>)
    requires Consistent(s) && LogOk(s) && ActivateEach(s, actor, ids).Some?
    ensures StatesAre(s.revisions, ids, ActivateEach(s, actor, ids).value.revisions)
    ensures CurrentsAre(s, ids, ActivateEach(s, actor, ids).value.documents)
    decreases |ids|
  {
    hide Consistent, LogOk, ActivateOne, StateAfter;
    if ids == [] {
      NothingActivated(s.revisions);
    } else {
      var rest, r := ids[..|ids| - 1], ids[|ids| - 1];
      assert ids == rest + [r];
      BatchActivates(s, actor, rest);
      ActivateEachKeeps(s, actor, rest);
      var t := ActivateEach(s, actor, rest).value;
      ActivateOneStates(t, actor, r);
      assert r in t.revisions by {
        ActivatesExisting(t, actor, r);
      }
      forall q | q in s.revisions
        ensures ActivateOne(t, actor, r).value.revisions[q].state == StateAfter(s.revisions, ids, q)
      {
        StateAfterStep(s.revisions, rest, r, q);
      }
    }
  }

  lemma NothingActivated(revs: Revisions)
    ensures StatesAre(revs, [], revs)
  {
  }

  lemma ActivatesExisting(s: Library, actor: Actor, r: nat)
    requires ActivateOne(s, actor, r).Some?
    ensures r in s.revisions && Activatable(s.revisions[r].state)
  {
  }

  /** The caller's check for one entry of a batch. */
  predicate Ready(revs: Revisions, ids: seq<nat>, i: nat)
    requires i < |ids|
  {
    ids[i] in revs
    && (revs[ids[i]].state.Approved?
        || (revs[ids[i]].state.Active? && Winner(revs, ids[..i], revs[ids[i]].document).None?))
  }

  /**
   * A batch of distinct revisions fails exactly when some entry is neither approved, nor active without
   * an earlier entry of its document; in particular the uniqueness constraint never makes it fail.
   */
  lemma {:induction false} BatchFailsExactly(s: Library, actor: Actor, ids: seq<nat>)
    requires Consistent(s) && LogOk(s) && NoDuplicates(ids)
    ensures ActivateEach(s, actor, ids).Some? <==> forall i :: 0 <= i < |ids| ==> Ready(s.revisions, ids, i)
    decreases |ids|
  {
    hide Consistent, LogOk, ActivateOne;
    if ids != [] {
      var n := |ids| - 1;
      var rest := ids[..n];
      assert NoDuplicates(rest) && ids[n] !in rest;
      BatchFailsExactly(s, actor, rest);
      forall i | 0 <= i < n
        ensures Ready(s.revisions, ids, i) <==> Ready(s.revisions, rest, i)
      {
        assert ids[..i] == rest[..i];
      }
      hide Ready, NoDuplicates;
      if ActivateEach(s, actor, rest).Some? {
        LastTurn(s, actor, ids);
      }
    }
  }

  lemma LastTurn(s: Library, actor: Actor, ids: seq<nat>)
    requires Consistent(s) && LogOk(s) && ids != [] && ids[|ids| - 1] !in ids[..|ids| - 1]
    requires ActivateEach(s, actor, ids[..|ids| - 1]).Some?
    ensures ActivateEach(s, actor, ids).Some? <==> Ready(s.revisions, ids, |ids| - 1)
  {
    var rest, r := ids[..|ids| - 1], ids[|ids| - 1];
    var t := ActivateEach(s, actor, rest).value;
    ActivateEachKeeps(s, actor, rest);
    BatchActivates(s, actor, rest);
    TurnSucceeds(t, actor, r);
    hide Consistent, LogOk, ActivateOne, StateAfter;
    if r in s.revisions {
      TurnReady(s.revisions, rest, r);
    }
  }

  lemma TurnReady(revs: Revisions, rest: seq<nat>, r: nat)
    requires r in revs && r !in rest
    ensures Activatable(StateAfter(revs, rest, r))
            <==> revs[r].state.Approved? || (revs[r].state.Active? && Winner(revs, rest, revs[r].document).None?)
  {
  }

  lemma TurnSucceeds(s: Library, actor: Actor, r: nat)
    requires Consistent(s)
    ensures ActivateOne(s, actor, r).Some? <==> r in s.revisions && Activatable(s.revisions[r].state)
  {
    if r in s.revisions && Activatable(s.revisions[r].state) {
      ActivationSucceeds(s, actor, r);
    }
    hide Consistent;
  }

  // ----- superseded revisions -----

  /** Superseded revisions stay, and nothing about them changes. */
  predicate SupersededStay(before: Revisions, after: Revisions) {
    forall r :: r in before && before[r].state.Superseded? ==> r in after && after[r] == before[r]
  }

  lemma StayTransitive(a: Revisions, b: Revisions, c: Revisions)
    requires SupersededStay(a, b) && SupersededStay(b, c)
    ensures SupersededStay(a, c)
  {
  }

  lemma MoveStays(s: Library, actor: Actor, move: Documents.Move, ids: seq<nat>)
    requires MoveRevisions(s, actor, move, ids).Some?
    ensures SupersededStay(s.revisions, MoveRevisions(s, actor, move, ids).value.revisions)
  {
    SelectedHolds(s.revisions, ids, move);
    hide Selected, NoDuplicates;
  }

  lemma ActivateOneStays(s: Library, actor: Actor, r: nat)
    requires ActivateOne(s, actor, r).Some?
    ensures SupersededStay(s.revisions, ActivateOne(s, actor, r).value.revisions)
  {
    OtherActiveHolds(s.revisions, RevisionsOf(s.revisions, s.revisions[r].document, s.next), r);
    hide RevisionsOf, OtherActive, NoDuplicates, SecondActive;
  }

  lemma {:induction false} ActivateEachStays(s: Library, actor: Actor, ids: seq<nat>)
    requires ActivateEach(s, actor, ids).Some?
    ensures SupersededStay(s.revisions, ActivateEach(s, actor, ids).value.revisions)
    decreases |ids|
  {
    hide ActivateOne, SupersededStay;
    if ids == [] {
      assert SupersededStay(s.revisions, s.revisions) by {
        StayReflexive(s.revisions);
      }
    } else {
      var t := ActivateEach(s, actor, ids[..|ids| - 1]).value;
      ActivateEachStays(s, actor, ids[..|ids| - 1]);
      ActivateOneStays(t, actor, ids[|ids| - 1]);
      StayTransitive(s.revisions, t.revisions, ActivateEach(s, actor, ids).value.revisions);
    }
  }

  lemma StayReflexive(a: Revisions)
    ensures SupersededStay(a, a)
  {
  }

  lemma {:induction false} MoveEachStays(s: Library, actor: Actor, move: Documents.Move, docs: seq<nat>)
    requires MoveEach(s, actor, move, docs).Some?
    ensures SupersededStay(s.revisions, MoveEach(s, actor, move, docs).value.revisions)
    decreases |docs|
  {
    hide MoveRevisions, SupersededStay, RevisionsOf, Along;
    StayReflexive(s.revisions);
    if docs != [] {
      var t, d := MoveEach(s, actor, move, docs[..|docs| - 1]).value, docs[|docs| - 1];
      MoveEachStays(s, actor, move, docs[..|docs| - 1]);
      MoveStays(t, actor, move, Along(t.revisions, RevisionsOf(t.revisions, d, t.next), move));
      StayTransitive(s.revisions, t.revisions, MoveEach(s, actor, move, docs).value.revisions);
    }
  }

  lemma {:induction false} ActivateDocumentsStays(s: Library, actor: Actor, docs: seq<nat>)
    requires ActivateDocuments(s, actor, docs).Some?
    ensures SupersededStay(s.revisions, ActivateDocuments(s, actor, docs).value.revisions)
    decreases |docs|
  {
    hide ActivateOne, SupersededStay, RevisionsOf, FirstActivatable;
    StayReflexive(s.revisions);
    if docs != [] {
      var t, d := ActivateDocuments(s, actor, docs[..|docs| - 1]).value, docs[|docs| - 1];
      ActivateDocumentsStays(s, actor, docs[..|docs| - 1]);
      ActivateOneStays(t, actor, FirstActivatable(t.revisions, RevisionsOf(t.revisions, d, t.next)).value);
      StayTransitive(s.revisions, t.revisions, ActivateDocuments(s, actor, docs).value.revisions);
    }
  }

  /** Superseded is terminal: no action on any list of records changes a superseded revision. */
  lemma SupersededIsTerminal(s: Library, actor: Actor, x: Action)
    requires RevisionsOk(s.revisions, s.documents, s.next) && Apply(s, actor, x).Some?
    ensures SupersededStay(s.revisions, Apply(s, actor, x).value.revisions)
  {
    hide MoveRevisions, ActivateEach, MoveEach, ActivateDocuments, RevisionsOf, WriteState;
    match x
    case NewDocument =>
    case NewRevision(_, _, _) =>
      assert forall r :: r in s.revisions ==> RevisionOk(r, s.revisions[r], s.documents, s.next);
    case NextRevision(_) =>
      assert forall r :: r in s.revisions ==> RevisionOk(r, s.revisions[r], s.documents, s.next);
    case Move(move, ids) => MoveStays(s, actor, move, ids);
    case Activate(ids) => ActivateEachStays(s, actor, ids);
    case Delete(_) =>
    case MoveDocs(move, docs) =>
      MoveEachStays(WriteDocuments(s, docs, DocKind(move), DocTarget(move), false), actor, move, docs);
    case ActivateDocs(docs) => ActivateDocumentsStays(s, actor, docs);
    case Obsolete(_) =>
  }

  // ----- which revision a document activates -----

  lemma {:induction false} FirstActivatableIsNewest(revs: Revisions, ids: seq<nat>)
    requires Exist(revs, ids) && Sorted(revs, ids)
    ensures FirstActivatable(revs, ids).None? <==> forall r :: r in ids ==> !Activatable(revs[r].state)
    ensures FirstActivatable(revs, ids).Some? ==>
      var w := FirstActivatable(revs, ids).value;
      forall r :: r in ids && Activatable(revs[r].state) && r != w ==> Newer(revs, w, r)
  {
    hide Activatable;
    if ids != [] && !Activatable(revs[ids[0]].state) {
      var rest := ids[1..];
      assert forall j :: 0 <= j < |rest| ==> rest[j] == ids[j + 1];
      FirstActivatableIsNewest(revs, rest);
      assert ids == [ids[0]] + rest;
    }
  }

  /** The newest approved or active revision of a document. */
  ghost predicate NewestActivatable(revs: Revisions, d: nat, w: nat) {
    && w in revs && revs[w].document == d && Activatable(revs[w].state)
    && forall r :: r in revs && revs[r].document == d && Activatable(revs[r].state) && r != w ==> Newer(revs, w, r)
  }

  lemma FirstIsNewestActivatable(s: Library, d: nat)
    requires RevisionsOk(s.revisions, s.documents, s.next)
    ensures var w := FirstActivatable(s.revisions, RevisionsOf(s.revisions, d, s.next));
      if w.Some? then NewestActivatable(s.revisions, d, w.value)
      else forall r :: r in s.revisions && s.revisions[r].document == d ==> !Activatable(s.revisions[r].state)
  {
    RevisionsOfHolds(s.revisions, d, s.next);
    RevisionsOfSorted(s.revisions, d, s.next);
    FirstActivatableIsNewest(s.revisions, RevisionsOf(s.revisions, d, s.next));
    assert forall r :: r in s.revisions ==> RevisionOk(r, s.revisions[r], s.documents, s.next);
    hide RevisionsOf, FirstActivatable, NoDuplicates, Sorted, Activatable, Newer;
  }

  lemma ActivateSingle(s: Library, actor: Actor, d: nat)
    requires actor.manager
    ensures var w := FirstActivatable(s.revisions, RevisionsOf(s.revisions, d, s.next));
      ActivateDocuments(s, actor, [d]) == if w.None? then None else ActivateOne(s, actor, w.value)
  {
    hide RevisionsOf, FirstActivatable, ActivateOne;
    assert [d][..0] == [];
  }

  /** Activating a document makes its newest approved or active revision current, and fails only if it has none. */
  lemma DocumentActivatesNewest(s: Library, actor: Actor, d: nat)
    requires Consistent(s) && actor.manager
    ensures ActivateDocuments(s, actor, [d]).Some? <==> exists w :: NewestActivatable(s.revisions, d, w)
    ensures ActivateDocuments(s, actor, [d]).Some? ==>
      var documents := ActivateDocuments(s, actor, [d]).value.documents;
      d < |documents| && documents[d].current.Some? && NewestActivatable(s.revisions, d, documents[d].current.value)
  {
    ActivateSingle(s, actor, d);
    FirstIsNewestActivatable(s, d);
    var w := FirstActivatable(s.revisions, RevisionsOf(s.revisions, d, s.next));
    hide RevisionsOf, FirstActivatable, ActivateOne, ActivateDocuments;
    if w.Some? {
      TurnSucceeds(s, actor, w.value);
      ActivateOneStates(s, actor, w.value);
      assert RevisionOk(w.value, s.revisions[w.value], s.documents, s.next);
    }
  }

  // ----- what a move does to each revision -----

  /**
   * Exactly the listed revisions in a source state move, an approval signs them, and nothing else about any
   * revision changes.
   */
  lemma MoveExactly(s: Library, actor: Actor, move: Documents.Move, ids: seq<nat>)
    ensures MoveRevisions(s, actor, move, ids).Some? <==> actor.manager && forall r :: r in ids ==> r in s.revisions
    ensures MoveRevisions(s, actor, move, ids).Some? ==>
      var t := MoveRevisions(s, actor, move, ids).value;
      && t.documents == s.documents && t.revisions.Keys == s.revisions.Keys
      && forall r :: r in s.revisions ==>
           var before, after := s.revisions[r], t.revisions[r];
           && after.state == (if r in ids && Movable(move, before.state) then Target(move) else before.state)
           && after.approver == (if r in ids && move.Approve? && before.state.UnderReview? then Some(actor.user)
                                 else before.approver)
           && after == before.(state := after.state, approver := after.approver)
  {
    if actor.manager && Exist(s.revisions, ids) {
      SelectedHolds(s.revisions, ids, move);
    }
    hide Selected, NoDuplicates, Entries;
  }
}
