/** The events of documents themselves: every state change leaves one, except activation. */
module DocumentChains {
  import opened Common
  import opened EventLog
  import opened Documents

  /** The events mention known documents only, and none of them leads to active. */
  ghost predicate LogSound(s: Library) {
    forall e :: e in s.docLog && e.Change? ==> e.record < |s.documents| && !e.next.DocActive?
  }

  /** The events of a document lead from new to its state. */
  predicate ChainOk(s: Library, d: nat)
    requires d < |s.documents|
  {
    Replay(s.docLog, d, NewDoc) == Some(s.documents[d].state)
  }

  predicate ListedTwice(s: Library, docs: seq<nat>, to: DocState, d: nat)
    requires d < |s.documents|
  {
    s.documents[d].state != to && 2 <= Occurrences(docs, d)
  }

  /** The list holds a revision of the document. */
  predicate Holds(revs: Revisions, ids: seq<nat>, d: nat) {
    exists r :: r in ids && r in revs && revs[r].document == d
  }

  /** Calls that leave a document in a state its events do not tell: an activation, or a change listed twice. */
  predicate Breaks(s: Library, x: Action, d: nat)
    requires d < |s.documents|
  {
    match x
    case Activate(ids) => !s.documents[d].state.DocActive? && Holds(s.revisions, ids, d)
    case ActivateDocs(docs) => !s.documents[d].state.DocActive? && d in docs
    case MoveDocs(move, docs) => ListedTwice(s, docs, DocTarget(move), d)
    case Obsolete(docs) => ListedTwice(s, docs, DocObsolete, d)
    case _ => false
  }

  // ----- changes that are logged -----

  /** A document's chain across a logged change of several documents. */
  lemma WrittenChain(s: Library, docs: seq<nat>, kind: Kind, to: DocState, archived: bool, d: nat)
    requires AllDocuments(s, docs) && d < |s.documents|
    ensures var t := WriteDocuments(s, docs, kind, to, archived);
      ChainOk(t, d) <==> ChainOk(s, d) && !ListedTwice(s, docs, to, d)
  {
    var states := DocStates(s.documents);
    OccurrencesOfDistinct(docs, d);
    hide Replay, Occurrences, NoDuplicates;
    if ChainOk(s, d) {
      ReplayEntries(s.docLog, docs, states, kind, to, d, NewDoc);
    } else {
      ReplayBroken(s.docLog, docs, states, kind, to, d, NewDoc);
    }
  }

  lemma WrittenLog(s: Library, docs: seq<nat>, kind: Kind, to: DocState, archived: bool)
    requires LogSound(s) && AllDocuments(s, docs) && !to.DocActive?
    ensures LogSound(WriteDocuments(s, docs, kind, to, archived))
  {
    var entries := Entries(docs, DocStates(s.documents), kind, to);
    assert forall e :: e in entries ==> e.record in docs && e.next == to;
  }

  /** Moving revisions leaves documents and their events alone. */
  lemma {:induction false} RevisionsOnly(s: Library, actor: Actor, move: Documents.Move, docs: seq<nat>)
    requires MoveEach(s, actor, move, docs).Some?
    ensures var t := MoveEach(s, actor, move, docs).value; t.documents == s.documents && t.docLog == s.docLog
    decreases |docs|
  {
    hide Selected, WriteMoved, States, KindOf, Target, RevisionsOf, Along;
    if docs != [] {
      RevisionsOnly(s, actor, move, docs[..|docs| - 1]);
    }
  }

  // ----- activations, which are not -----

  /** A document's state after some documents were activated. */
  predicate Activated(before: seq<Document>, after: seq<Document>, d: nat, touched: bool) {
    |after| == |before| && (d < |before| ==> after[d].state == if touched then DocActive else before[d].state)
  }

  /** One activation logs no event of a document and makes the revision's own document active, and no other. */
  lemma OneSilent(s: Library, actor: Actor, r: nat, d: nat)
    requires ActivateOne(s, actor, r).Some?
    ensures var t := ActivateOne(s, actor, r).value;
      && r in s.revisions && t.docLog == s.docLog
      && Activated(s.documents, t.documents, d, s.revisions[r].document == d)
      && t.revisions.Keys == s.revisions.Keys
      && forall q :: q in s.revisions ==> t.revisions[q].document == s.revisions[q].document
  {
    hide States, KindOf, Target, RevisionsOf, OtherActive, SecondActive;
  }

  lemma HoldsLast(before: Revisions, after: Revisions, ids: seq<nat>, r: nat, d: nat)
    requires after.Keys == before.Keys && r in before
    requires forall q :: q in before ==> after[q].document == before[q].document
    ensures Holds(before, ids + [r], d) <==> Holds(before, ids, d) || after[r].document == d
  {
    assert r in ids + [r];
    if Holds(before, ids, d) {
      var q :| q in ids && q in before && before[q].document == d;
      assert q in ids + [r];
    }
  }

  lemma {:induction false} EachSilent(s: Library, actor: Actor, ids: seq<nat>, d: nat)
    requires ActivateEach(s, actor, ids).Some?
    ensures var t := ActivateEach(s, actor, ids).value;
      && t.docLog == s.docLog && Activated(s.documents, t.documents, d, Holds(s.revisions, ids, d))
      && t.revisions.Keys == s.revisions.Keys
      && forall q :: q in s.revisions ==> t.revisions[q].document == s.revisions[q].document
    decreases |ids|
  {
    hide ActivateOne, Holds;
    if ids == [] {
      assert !Holds(s.revisions, [], d) by {
        HoldsNone(s.revisions, d);
      }
    } else {
      var fewer, last := ids[..|ids| - 1], ids[|ids| - 1];
      EachSilent(s, actor, fewer, d);
      var m := ActivateEach(s, actor, fewer).value;
      OneSilent(m, actor, last, d);
      HoldsLast(s.revisions, m.revisions, fewer, last, d);
      assert ids == fewer + [last];
    }
  }

  lemma HoldsNone(revs: Revisions, d: nat)
    ensures !Holds(revs, [], d)
  {
  }

  lemma {:induction false} DocumentsSilent(s: Library, actor: Actor, docs: seq<nat>, d: nat)
    requires ActivateDocuments(s, actor, docs).Some?
    ensures var t := ActivateDocuments(s, actor, docs).value;
      t.docLog == s.docLog && Activated(s.documents, t.documents, d, d in docs)
    decreases |docs|
  {
    hide ActivateOne, RevisionsOf, FirstActivatable;
    if docs != [] {
      var fewer, last := docs[..|docs| - 1], docs[|docs| - 1];
      DocumentsSilent(s, actor, fewer, d);
      var t := ActivateDocuments(s, actor, fewer).value;
      var ids := RevisionsOf(t.revisions, last, t.next);
      RevisionsOfHolds(t.revisions, last, t.next);
      OneSilent(t, actor, FirstActivatable(t.revisions, ids).value, d);
      assert docs == fewer + [last];
    }
  }

  /** No events lead to active, so a document that is active has events that do not tell its state. */
  lemma {:induction false} NeverToActive(log: seq<Event<DocState>>, d: nat)
    requires forall e :: e in log && e.Change? ==> !e.next.DocActive?
    ensures Replay(log, d, NewDoc) != Some(DocActive)
  {
    if log != [] {
      NeverToActive(log[..|log| - 1], d);
      assert log[|log| - 1] in log;
    }
  }

  lemma SilentChain(s: Library, t: Library, d: nat, touched: bool)
    requires LogSound(s) && t.docLog == s.docLog && d < |s.documents| && Activated(s.documents, t.documents, d, touched)
    ensures LogSound(t)
    ensures ChainOk(t, d) <==> ChainOk(s, d) && !(touched && !s.documents[d].state.DocActive?)
  {
    NeverToActive(s.docLog, d);
    hide Replay;
  }

  // ----- one action -----

  /** Documents are only ever added, and the log is only ever extended. */
  lemma LogGrows(s: Library, actor: Actor, x: Action)
    requires LogSound(s) && Apply(s, actor, x).Some?
    ensures var t := Apply(s, actor, x).value;
      LogSound(t) && s.docLog <= t.docLog && |s.documents| <= |t.documents|
  {
    hide MoveEach, ActivateEach, ActivateDocuments, WriteState, Entries, MoveAll, Selected, RevisionsOf;
    var t := Apply(s, actor, x).value;
    match x
    case MoveDocs(move, docs) =>
      WrittenLog(s, docs, DocKind(move), DocTarget(move), false);
      RevisionsOnly(WriteDocuments(s, docs, DocKind(move), DocTarget(move), false), actor, move, docs);
    case Obsolete(docs) => WrittenLog(s, docs, Closure, DocObsolete, true);
    case Activate(ids) => EachSilent(s, actor, ids, 0);
    case ActivateDocs(docs) => DocumentsSilent(s, actor, docs, 0);
    case Move(move, ids) => MovesRevisionsOnly(s, actor, move, ids);
    case NewDocument =>
    case NewRevision(_, _, _) =>
    case NextRevision(_) =>
    case Delete(_) =>
  }

  lemma MovesRevisionsOnly(s: Library, actor: Actor, move: Documents.Move, ids: seq<nat>)
    requires MoveRevisions(s, actor, move, ids).Some?
    ensures MoveRevisions(s, actor, move, ids).value.documents == s.documents
    ensures MoveRevisions(s, actor, move, ids).value.docLog == s.docLog
  {
  }

  /**
   * Document by document: its events tell its state after an action exactly when they did before and the
   * action neither activates it while it is not active nor lists it twice for a change of state. What is
   * broken never heals.
   */
  lemma DocumentChainExactly(s: Library, actor: Actor, x: Action, d: nat)
    requires LogSound(s) && d < |s.documents| && Apply(s, actor, x).Some?
    ensures d < |Apply(s, actor, x).value.documents|
    ensures ChainOk(Apply(s, actor, x).value, d) <==> ChainOk(s, d) && !Breaks(s, x, d)
  {
    LogGrows(s, actor, x);
    hide LogSound, MoveAll, ActivateEach, MoveEach, ActivateDocuments, Selected, ListedTwice, Holds, Replay,
         RevisionsOf, WriteDocuments;
    var t := Apply(s, actor, x).value;
    match x
    case Activate(ids) =>
      EachSilent(s, actor, ids, d);
      SilentChain(s, t, d, Holds(s.revisions, ids, d));
    case ActivateDocs(docs) =>
      DocumentsSilent(s, actor, docs, d);
      SilentChain(s, t, d, d in docs);
    case MoveDocs(move, docs) =>
      WrittenChain(s, docs, DocKind(move), DocTarget(move), false, d);
      RevisionsOnly(WriteDocuments(s, docs, DocKind(move), DocTarget(move), false), actor, move, docs);
    case Obsolete(docs) => WrittenChain(s, docs, Closure, DocObsolete, true, d);
    case Move(move, ids) => MovesRevisionsOnly(s, actor, move, ids);
    case NewDocument =>
    case NewRevision(_, _, _) =>
    case NextRevision(_) =>
    case Delete(_) =>
  }

  lemma NewChain(s: Library, actor: Actor, x: Action, d: nat)
    requires LogSound(s) && Apply(s, actor, x).Some? && |s.documents| <= d < |Apply(s, actor, x).value.documents|
    ensures ChainOk(Apply(s, actor, x).value, d)
  {
    hide MoveEach, ActivateEach, ActivateDocuments, Selected, RevisionsOf, Replay, WriteState, Entries;
    match x
    case NewDocument => ReplayNone(s.docLog, d, NewDoc);
    case MoveDocs(move, docs) =>
      RevisionsOnly(WriteDocuments(s, docs, DocKind(move), DocTarget(move), false), actor, move, docs);
      assert false;
    case Activate(ids) =>
      EachSilent(s, actor, ids, d);
      assert false;
    case ActivateDocs(docs) =>
      DocumentsSilent(s, actor, docs, d);
      assert false;
    case Move(move, ids) =>
      MovesRevisionsOnly(s, actor, move, ids);
      assert false;
    case _ => assert false;
  }

  /** The whole library: with every chain in order, an action keeps them all exactly when it breaks none. */
  lemma LibraryChainsExactly(s: Library, actor: Actor, x: Action)
    requires LogSound(s) && Apply(s, actor, x).Some?
    requires forall d: nat :: d < |s.documents| ==> ChainOk(s, d)
    ensures var t := Apply(s, actor, x).value;
      (forall d: nat :: d < |t.documents| ==> ChainOk(t, d))
      <==> forall d: nat :: d < |s.documents| ==> !Breaks(s, x, d)
  {
    LogGrows(s, actor, x);
    hide LogSound, Apply, ChainOk, Breaks;
    var t := Apply(s, actor, x).value;
    forall d: nat | d < |t.documents|
      ensures ChainOk(t, d) <==> d >= |s.documents| || !Breaks(s, x, d)
    {
      if d < |s.documents| {
        DocumentChainExactly(s, actor, x, d);
      } else {
        NewChain(s, actor, x, d);
      }
    }
  }

  // ----- runs -----

  /** The step is carried out and leaves the document in a state its events do not tell. */
  predicate BreaksAt(steps: seq<(Actor, Action)>, i: nat, d: nat)
    requires i < |steps|
  {
    var s := Run(steps[..i]);
    d < |s.documents| && Apply(s, steps[i].0, steps[i].1).Some? && Breaks(s, steps[i].1, d)
  }

  lemma {:induction false} ReachableLog(steps: seq<(Actor, Action)>)
    ensures LogSound(Run(steps))
    decreases |steps|
  {
    hide Apply;
    if steps != [] {
      var earlier, step := steps[..|steps| - 1], steps[|steps| - 1];
      ReachableLog(earlier);
      if Apply(Run(earlier), step.0, step.1).Some? {
        LogGrows(Run(earlier), step.0, step.1);
      }
    }
  }

  lemma BreaksSplit(steps: seq<(Actor, Action)>, d: nat)
    requires steps != []
    ensures var n := |steps| - 1;
      (exists i :: 0 <= i < |steps| && BreaksAt(steps, i, d))
      <==> (exists i :: 0 <= i < n && BreaksAt(steps[..n], i, d)) || BreaksAt(steps, n, d)
  {
    var n := |steps| - 1;
    hide Breaks, Apply, Run;
    forall i | 0 <= i < n
      ensures BreaksAt(steps[..n], i, d) <==> BreaksAt(steps, i, d)
    {
      assert steps[..n][..i] == steps[..i] && steps[..n][i] == steps[i];
    }
    hide BreaksAt;
    if j :| 0 <= j < n && BreaksAt(steps[..n], j, d) {
      assert BreaksAt(steps, j, d);
    }
  }

  /**
   * Over whole runs: the events of a document lead to its state exactly when no step that was carried out
   * activated it while it was not active or listed it twice for a change of state.
   */
  lemma {:induction false} ReachableChainsExactly(steps: seq<(Actor, Action)>, d: nat)
    requires d < |Run(steps).documents|
    ensures ChainOk(Run(steps), d) <==> !exists i :: 0 <= i < |steps| && BreaksAt(steps, i, d)
    decreases |steps|
  {
    if steps != [] {
      var n := |steps| - 1;
      var s, step := Run(steps[..n]), steps[n];
      BreaksSplit(steps, d);
      ReachableLog(steps[..n]);
      hide Apply, ChainOk, Breaks, LogSound;
      if d < |s.documents| {
        ReachableChainsExactly(steps[..n], d);
        if Apply(s, step.0, step.1).Some? {
          DocumentChainExactly(s, step.0, step.1, d);
        }
      } else {
        NotYet(steps[..n], d);
        NewChain(s, step.0, step.1, d);
      }
    }
  }

  /** Before a document exists no step breaks its chain. */
  lemma {:induction false} NotYet(steps: seq<(Actor, Action)>, d: nat)
    requires |Run(steps).documents| <= d
    ensures forall i :: 0 <= i < |steps| ==> !BreaksAt(steps, i, d)
    decreases |steps|
  {
    if steps != [] {
      var n := |steps| - 1;
      var s, step := Run(steps[..n]), steps[n];
      ReachableLog(steps[..n]);
      hide Breaks, LogSound, Apply;
      if Apply(s, step.0, step.1).Some? {
        LogGrows(s, step.0, step.1);
      }
      NotYet(steps[..n], d);
      hide BreaksAt;
      BreaksSplit(steps, d);
      if i :| 0 <= i < |steps| && BreaksAt(steps, i, d) {
        assert BreaksAt(steps, n, d);
        BreaksKnown(steps, n, d);
        assert false;
      }
    }
  }

  lemma BreaksKnown(steps: seq<(Actor, Action)>, i: nat, d: nat)
    requires i < |steps| && BreaksAt(steps, i, d)
    ensures d < |Run(steps[..i]).documents|
  {
  }

  /** In every reachable library an active document's events do not tell that it is. */
  lemma ActiveIsUntold(steps: seq<(Actor, Action)>, d: nat)
    requires d < |Run(steps).documents| && Run(steps).documents[d].state.DocActive?
    ensures !ChainOk(Run(steps), d)
  {
    ReachableLog(steps);
    NeverToActive(Run(steps).docLog, d);
    hide Run, Replay;
  }

  // ----- a concrete activation -----

  /** An approved document with one revision, approved too. */
  function Approving(): Library {
    Library([Document(DocApproved, None, false)], map[0 := Revision(0, "01", 0, Approved, Some(0), None)], 1, [],
            [Change(0, Workflow, NewDoc, DocUnderReview), Change(0, Approval, DocUnderReview, DocApproved)])
  }

  lemma ApprovingChain()
    ensures ChainOk(Approving(), 0) && LogSound(Approving())
  {
    var e1: Event<DocState>, e2: Event<DocState> :=
      Change(0, Workflow, NewDoc, DocUnderReview), Change(0, Approval, DocUnderReview, DocApproved);
    assert Approving().docLog == [e1, e2] && [e1, e2][..1] == [e1] && [e1][..0] == [];
    assert Replay([], 0, NewDoc) == Some(NewDoc) && Replay([e1], 0, NewDoc) == Some(DocUnderReview);
  }

  /** A concrete activation that breaks a chain. */
  lemma SilentActivation()
    ensures ChainOk(Approving(), 0)
    ensures var t := Apply(Approving(), Actor(0, true, 0), Activate([0]));
      && t.Some? && |t.value.documents| == 1 && t.value.documents[0].state == DocActive && !ChainOk(t.value, 0)
      && Replay(t.value.docLog, 0, NewDoc) == Some(DocApproved)
  {
    var s, actor := Approving(), Actor(0, true, 0);
    ApprovingChain();
    assert RevisionsOf(s.revisions, 0, 0) == [] && RevisionsOf(s.revisions, 0, 1) == [0];
    assert ([0])[..0] == [] && OtherActive(s.revisions, [0], 0) == [];
    assert ActivateEach(s, actor, []) == Some(s);
    var t := ActivateOne(s, actor, 0);
    assert t.Some? && ActivateEach(s, actor, [0]) == t;
    OneSilent(s, actor, 0, 0);
    hide ActivateOne, ActivateEach, LogSound;
  }
}
