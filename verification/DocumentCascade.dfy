/** Document actions in full: what becomes of each document and of each of its revisions, and the events. */
module DocumentCascade {
  import opened Common
  import opened EventLog
  import opened Documents
  import opened DocumentRuns
  import opened DocumentRules

  // ----- the documents themselves -----

  /** Where an action takes a document, and the kind of event it writes. */
  predicate DocLeads(move: Documents.Move, to: DocState, kind: Kind) {
    || (move == Submit && to == DocUnderReview && kind == Workflow)
    || (move == Approve && to == DocApproved && kind == Approval)
    || (move == Reject && to == NewDoc && kind == Review)
  }

  /** The listed documents are in a state, archived with it or as before. */
  predicate StatesPut(s: Library, t: Library, docs: seq<nat>, to: DocState, archived: bool) {
    && |t.documents| == |s.documents|
    && forall d :: 0 <= d < |s.documents| ==>
         t.documents[d] == if d in docs
                           then Document(to, s.documents[d].current, archived || s.documents[d].archived)
                           else s.documents[d]
  }

  /** One event tells of each. */
  predicate EventsPut(s: Library, t: Library, docs: seq<nat>, to: DocState, kind: Kind) {
    && |t.docLog| == |s.docLog| + |docs| && s.docLog <= t.docLog
    && forall i :: 0 <= i < |docs| ==>
         && docs[i] < |s.documents|
         && t.docLog[|s.docLog| + i] == Change(docs[i], kind, s.documents[docs[i]].state, to)
  }

  predicate DocumentsPut(s: Library, t: Library, docs: seq<nat>, to: DocState, kind: Kind, archived: bool) {
    StatesPut(s, t, docs, to, archived) && EventsPut(s, t, docs, to, kind)
  }

  lemma WrittenStates(s: Library, docs: seq<nat>, kind: Kind, to: DocState, archived: bool)
    requires AllDocuments(s, docs)
    ensures var t := WriteDocuments(s, docs, kind, to, archived);
      StatesPut(s, t, docs, to, archived) && t == s.(documents := t.documents, docLog := t.docLog)
  {
    hide Entries, DocStates;
  }

  lemma WrittenEvents(s: Library, docs: seq<nat>, kind: Kind, to: DocState, archived: bool)
    requires AllDocuments(s, docs)
    ensures EventsPut(s, WriteDocuments(s, docs, kind, to, archived), docs, to, kind)
  {
    hide WriteState;
    forall i | 0 <= i < |docs|
      ensures docs[i] in docs
    {
    }
  }

  lemma WrittenPut(s: Library, docs: seq<nat>, kind: Kind, to: DocState, archived: bool)
    requires AllDocuments(s, docs)
    ensures var t := WriteDocuments(s, docs, kind, to, archived);
      DocumentsPut(s, t, docs, to, kind, archived) && t == s.(documents := t.documents, docLog := t.docLog)
  {
    WrittenStates(s, docs, kind, to, archived);
    WrittenEvents(s, docs, kind, to, archived);
    hide WriteDocuments, StatesPut, EventsPut;
  }

  /** A manager makes any documents obsolete; they are archived, and their revisions stay as they are. */
  lemma ObsoleteWritten(s: Library, actor: Actor, docs: seq<nat>)
    ensures Apply(s, actor, Obsolete(docs)).Some? <==> actor.manager && forall d :: d in docs ==> d < |s.documents|
    ensures Apply(s, actor, Obsolete(docs)).Some? ==> var t := Apply(s, actor, Obsolete(docs)).value;
      && t == s.(documents := t.documents, docLog := t.docLog)
      && DocumentsPut(s, t, docs, DocObsolete, Closure, true)
  {
    hide WriteDocuments, DocumentsPut;
    if AllDocuments(s, docs) {
      WrittenPut(s, docs, Closure, DocObsolete, true);
    }
  }

  // ----- the revisions they take along -----

  /** Submitting takes drafts along, approving and rejecting what is under review. */
  predicate Comes(move: Documents.Move, from: RevState) {
    (move == Submit && from == Draft) || (move != Submit && from == UnderReview)
  }

  /** A revision of one of some documents that comes along. */
  predicate Carried(revs: Revisions, docs: seq<nat>, move: Documents.Move, r: nat) {
    r in revs && revs[r].document in docs && Comes(move, revs[r].state)
  }

  /** Newest first. */
  predicate Earlier(revs: Revisions, a: nat, b: nat)
    requires a in revs && b in revs
  {
    revs[a].date > revs[b].date || (revs[a].date == revs[b].date && a > b)
  }

  /** Event k of those added. */
  function Added(s: Library, t: Library, k: nat): Event<RevState>
    requires |s.log| + k < |t.log|
  {
    t.log[|s.log| + k]
  }

  /** An event of a revision that came along, from the state it had. */
  predicate Tells(s: Library, docs: seq<nat>, move: Documents.Move, e: Event<RevState>) {
    && e.Change? && Carried(s.revisions, docs, move, e.record)
    && e.previous == s.revisions[e.record].state && Leads(move, e.previous, e.next, e.kind)
  }

  predicate Told(s: Library, t: Library, r: nat)
    requires |s.log| <= |t.log|
  {
    exists k: nat :: k < |t.log| - |s.log| && Added(s, t, k).record == r
  }

  /** The event order: a document's revisions from the newest, no revision twice. */
  predicate NewestFirst(s: Library, t: Library)
    requires |s.log| <= |t.log|
  {
    forall j: nat, k: nat :: j < k < |t.log| - |s.log| ==>
      var q, r := Added(s, t, j).record, Added(s, t, k).record;
      && q != r && q in s.revisions && r in s.revisions
      && (s.revisions[q].document == s.revisions[r].document ==> Earlier(s.revisions, q, r))
  }

  /** Exactly the revisions that come along move, one event tells of each, newest first. */
  predicate CarriedAlong(s: Library, t: Library, user: nat, move: Documents.Move, docs: seq<nat>) {
    && t.next == s.next && t.revisions.Keys == s.revisions.Keys && s.log <= t.log
    && (forall r :: r in s.revisions ==>
          if Carried(s.revisions, docs, move, r)
          then MovesOn(move, user, s.revisions[r], t.revisions[r]) && Told(s, t, r)
          else t.revisions[r] == s.revisions[r])
    && (forall k: nat :: k < |t.log| - |s.log| ==> Tells(s, docs, move, Added(s, t, k)))
    && NewestFirst(s, t)
  }

  lemma {:induction false} AlongSorted(revs: Revisions, ids: seq<nat>, move: Documents.Move)
    requires Exist(revs, ids) && Sorted(revs, ids)
    ensures Sorted(revs, Along(revs, ids, move))
  {
    hide Newer, TakenAlong;
    if ids != [] {
      var n := |ids| - 1;
      var earlier := Along(revs, ids[..n], move);
      AlongSorted(revs, ids[..n], move);
      AlongHolds(revs, ids[..n], move);
      forall i | 0 <= i < |earlier|
        ensures Newer(revs, earlier[i], ids[n])
      {
        assert earlier[i] in earlier;
        var k :| 0 <= k < n && ids[..n][k] == earlier[i];
        assert Newer(revs, ids[k], ids[n]);
      }
    }
  }

  lemma {:induction false} SelectedSorted(revs: Revisions, ids: seq<nat>, move: Documents.Move)
    requires Exist(revs, ids) && Sorted(revs, ids)
    ensures Sorted(revs, Selected(revs, ids, move))
  {
    hide Newer, Movable;
    if ids != [] {
      var n := |ids| - 1;
      var earlier := Selected(revs, ids[..n], move);
      SelectedSorted(revs, ids[..n], move);
      SelectedHolds(revs, ids[..n], move);
      forall i | 0 <= i < |earlier|
        ensures Newer(revs, earlier[i], ids[n])
      {
        assert earlier[i] in earlier;
        var k :| 0 <= k < n && ids[..n][k] == earlier[i];
        assert Newer(revs, ids[k], ids[n]);
      }
    }
  }

  /** The revisions of one document that come along, newest first. */
  ghost predicate Group(s: Library, d: nat, move: Documents.Move, picks: seq<nat>) {
    && (forall r :: r in picks <==>
          (r in s.revisions && s.revisions[r].document == d && Comes(move, s.revisions[r].state)))
    && NoDuplicates(picks)
    && forall i, j :: 0 <= i < j < |picks| ==>
         picks[i] in s.revisions && picks[j] in s.revisions && Earlier(s.revisions, picks[i], picks[j])
  }

  lemma ComesExactly(move: Documents.Move, from: RevState)
    requires move != Supersede
    ensures TakenAlong(move, from) <==> Comes(move, from)
    ensures Comes(move, from) ==> Movable(move, from)
  {
  }

  lemma SortedEarlier(revs: Revisions, ids: seq<nat>)
    requires Exist(revs, ids) && Sorted(revs, ids)
    ensures forall i, j :: 0 <= i < j < |ids| ==> ids[i] in revs && ids[j] in revs && Earlier(revs, ids[i], ids[j])
  {
    assert forall i :: 0 <= i < |ids| ==> ids[i] in ids;
    forall i, j | 0 <= i < j < |ids|
      ensures ids[i] in revs && ids[j] in revs && Earlier(revs, ids[i], ids[j])
    {
      assert Newer(revs, ids[i], ids[j]);
    }
  }

  /** The revisions that the turn of one document moves. */
  function Turn(s: Library, move: Documents.Move, d: nat): (picks: seq<nat>)
    ensures Exist(s.revisions, picks)
  {
    Selected(s.revisions, Along(s.revisions, RevisionsOf(s.revisions, d, s.next), move), move)
  }

  lemma TurnMembers(s: Library, move: Documents.Move, d: nat)
    requires move != Supersede && forall r :: r in s.revisions ==> r < s.next
    ensures forall r :: r in Turn(s, move, d) <==>
      (r in s.revisions && s.revisions[r].document == d && Comes(move, s.revisions[r].state))
    ensures NoDuplicates(Turn(s, move, d))
  {
    var ids := RevisionsOf(s.revisions, d, s.next);
    RevisionsOfHolds(s.revisions, d, s.next);
    AlongHolds(s.revisions, ids, move);
    SelectedHolds(s.revisions, Along(s.revisions, ids, move), move);
    forall r | r in s.revisions
      ensures TakenAlong(move, s.revisions[r].state) <==> Comes(move, s.revisions[r].state)
      ensures Comes(move, s.revisions[r].state) ==> Movable(move, s.revisions[r].state)
    {
      ComesExactly(move, s.revisions[r].state);
    }
    hide RevisionsOf, Along, Selected, TakenAlong, Movable, Comes, NoDuplicates;
  }

  lemma TurnSorted(s: Library, move: Documents.Move, d: nat)
    ensures Sorted(s.revisions, Turn(s, move, d))
  {
    var ids := RevisionsOf(s.revisions, d, s.next);
    hide Sorted, RevisionsOf, Along, Selected;
    RevisionsOfSorted(s.revisions, d, s.next);
    AlongSorted(s.revisions, ids, move);
    SelectedSorted(s.revisions, Along(s.revisions, ids, move), move);
  }

  /** The turn of one document takes its group. */
  lemma TurnTakes(s: Library, actor: Actor, move: Documents.Move, d: nat)
    requires actor.manager && move != Supersede && forall r :: r in s.revisions ==> r < s.next
    ensures Group(s, d, move, Turn(s, move, d))
    ensures var t := MoveRevisions(s, actor, move, Along(s.revisions, RevisionsOf(s.revisions, d, s.next), move));
      t.Some? && Taken(s, t.value, actor.user, move, Turn(s, move, d))
  {
    var picks := Turn(s, move, d);
    TurnMembers(s, move, d);
    TurnSorted(s, move, d);
    SortedEarlier(s.revisions, picks);
    forall r | r in picks
      ensures Movable(move, s.revisions[r].state)
    {
      ComesExactly(move, s.revisions[r].state);
    }
    hide Comes, Movable, Selected, Along, RevisionsOf, Earlier, NoDuplicates, Sorted, MoveAll, Taken;
    AllTaken(s, actor.user, move, picks);
    hide Group;
  }

  /** A revision that came along does not come again: its new state is none an action starts from. */
  lemma NotAgain(move: Documents.Move, user: nat, before: Revision, after: Revision)
    requires move != Supersede && MovesOn(move, user, before, after)
    ensures !Comes(move, after.state) && after.document == before.document && after.date == before.date
  {
  }

  /** Which revisions the next document takes: those that come along with it and did not before. */
  lemma TakesTheRest(s: Library, t: Library, user: nat, move: Documents.Move, docs: seq<nat>, d: nat, picks: seq<nat>)
    requires move != Supersede && CarriedAlong(s, t, user, move, docs) && Group(t, d, move, picks)
    ensures forall r :: r in picks <==>
      (r in s.revisions && Carried(s.revisions, docs + [d], move, r) && !Carried(s.revisions, docs, move, r))
    ensures forall r :: r in picks ==> t.revisions[r] == s.revisions[r]
    ensures forall r :: r in s.revisions ==>
      t.revisions[r].document == s.revisions[r].document && t.revisions[r].date == s.revisions[r].date
  {
    forall r | r in s.revisions
      ensures t.revisions[r].document == s.revisions[r].document && t.revisions[r].date == s.revisions[r].date
      ensures Carried(s.revisions, docs, move, r) ==> !Comes(move, t.revisions[r].state)
    {
      if Carried(s.revisions, docs, move, r) {
        NotAgain(move, user, s.revisions[r], t.revisions[r]);
      }
    }
    hide Comes, MovesOn, Told, Tells, NewestFirst, NoDuplicates;
  }

  /** One more document: its revisions move, and the events of the others stay. */
  lemma CarriedStep(s: Library, t: Library, u: Library, user: nat, move: Documents.Move, docs: seq<nat>, d: nat,
                    picks: seq<nat>)
    requires move != Supersede && CarriedAlong(s, t, user, move, docs) && Group(t, d, move, picks)
    requires Taken(t, u, user, move, picks)
    ensures CarriedAlong(s, u, user, move, docs + [d])
  {
    TakesTheRest(s, t, user, move, docs, d, picks);
    EventsStep(s, t, u, user, move, docs, d, picks);
    OrderStep(s, t, u, user, move, docs, d, picks);
    forall r | r in s.revisions
      ensures if Carried(s.revisions, docs + [d], move, r)
              then MovesOn(move, user, s.revisions[r], u.revisions[r]) && Told(s, u, r)
              else u.revisions[r] == s.revisions[r]
    {
      ToldStep(s, t, u, user, move, picks, r);
    }
    hide Carried, MovesOn, Told, Tells, NewestFirst, Group, TellsEach;
  }

  lemma ToldStep(s: Library, t: Library, u: Library, user: nat, move: Documents.Move, picks: seq<nat>, r: nat)
    requires |s.log| <= |t.log| && Taken(t, u, user, move, picks)
    ensures r in picks ==> Told(s, u, r)
    ensures Told(s, t, r) ==> Told(s, u, r)
  {
    hide MovesOn, Leads;
    if r in picks {
      var i :| 0 <= i < |picks| && picks[i] == r;
      assert Added(s, u, |t.log| - |s.log| + i) == u.log[|t.log| + i];
    }
    if Told(s, t, r) {
      var k: nat :| k < |t.log| - |s.log| && Added(s, t, k).record == r;
      assert Added(s, u, k) == Added(s, t, k);
    }
  }

  lemma EventsStep(s: Library, t: Library, u: Library, user: nat, move: Documents.Move, docs: seq<nat>, d: nat,
                   picks: seq<nat>)
    requires move != Supersede && CarriedAlong(s, t, user, move, docs) && Group(t, d, move, picks)
    requires Taken(t, u, user, move, picks)
    ensures forall k: nat :: k < |u.log| - |s.log| ==> Tells(s, docs + [d], move, Added(s, u, k))
  {
    TakesTheRest(s, t, user, move, docs, d, picks);
    hide MovesOn, Leads, NewestFirst, Comes, Group, Told;
    forall k: nat | k < |u.log| - |s.log|
      ensures Tells(s, docs + [d], move, Added(s, u, k))
    {
      if k < |t.log| - |s.log| {
        assert Added(s, u, k) == Added(s, t, k);
        assert Tells(s, docs, move, Added(s, t, k));
      } else {
        var i := k - (|t.log| - |s.log|);
        assert u.log[|t.log| + i] == Added(s, u, k);
        assert picks[i] in picks;
      }
    }
  }

  /** The events added are the earlier ones and then one for each revision taken. */
  lemma AddedPicks(s: Library, t: Library, u: Library, user: nat, move: Documents.Move, picks: seq<nat>)
    requires |s.log| <= |t.log| && Taken(t, u, user, move, picks)
    ensures var n := |t.log| - |s.log|;
      && |u.log| == |s.log| + n + |picks|
      && (forall k: nat :: k < n ==> Added(s, u, k) == Added(s, t, k))
      && forall k: nat :: n <= k < n + |picks| ==> Added(s, u, k).record == picks[k - n]
  {
    hide MovesOn, Leads;
    var n := |t.log| - |s.log|;
    forall k: nat | n <= k < n + |picks|
      ensures Added(s, u, k).record == picks[k - n]
    {
      assert u.log[|t.log| + (k - n)] == Added(s, u, k);
    }
  }

  lemma OrderStep(s: Library, t: Library, u: Library, user: nat, move: Documents.Move, docs: seq<nat>, d: nat,
                  picks: seq<nat>)
    requires move != Supersede && CarriedAlong(s, t, user, move, docs) && Group(t, d, move, picks)
    requires Taken(t, u, user, move, picks)
    ensures NewestFirst(s, u)
  {
    TakesTheRest(s, t, user, move, docs, d, picks);
    AddedPicks(s, t, u, user, move, picks);
    hide Taken, MovesOn, Leads, Comes, Told;
    var n := |t.log| - |s.log|;
    forall j: nat, k: nat | j < k < |u.log| - |s.log|
      ensures var q, r := Added(s, u, j).record, Added(s, u, k).record;
        && q != r && q in s.revisions && r in s.revisions
        && (s.revisions[q].document == s.revisions[r].document ==> Earlier(s.revisions, q, r))
    {
      if k >= n {
        assert picks[k - n] in picks;
        if j < n {
          assert Tells(s, docs, move, Added(s, t, j));
        } else {
          assert picks[j - n] in picks && picks[j - n] != picks[k - n];
        }
      }
    }
  }

  lemma CarriedNone(s: Library, user: nat, move: Documents.Move)
    ensures CarriedAlong(s, s, user, move, [])
  {
  }

  lemma {:induction false} EachCarried(s: Library, actor: Actor, move: Documents.Move, docs: seq<nat>)
    requires actor.manager && move != Supersede && forall r :: r in s.revisions ==> r < s.next
    ensures MoveEach(s, actor, move, docs).Some?
    ensures var t := MoveEach(s, actor, move, docs).value;
      CarriedAlong(s, t, actor.user, move, docs) && t == s.(revisions := t.revisions, log := t.log)
    decreases |docs|
  {
    hide CarriedAlong, Along, RevisionsOf, MoveRevisions, Taken, Group, Turn;
    if docs == [] {
      CarriedNone(s, actor.user, move);
    } else {
      var fewer, d := docs[..|docs| - 1], docs[|docs| - 1];
      EachCarried(s, actor, move, fewer);
      var t := MoveEach(s, actor, move, fewer).value;
      assert forall r :: r in t.revisions ==> r < t.next by {
        SameKeys(s, t, actor.user, move, fewer);
      }
      TurnTakes(t, actor, move, d);
      var picks := Turn(t, move, d);
      var u := MoveEach(s, actor, move, docs).value;
      assert u == t.(revisions := u.revisions, log := u.log) by {
        OnlyRevisions(t, u, actor.user, move, picks);
      }
      CarriedStep(s, t, u, actor.user, move, fewer, d, picks);
      assert docs == fewer + [d];
    }
  }

  lemma SameKeys(s: Library, t: Library, user: nat, move: Documents.Move, docs: seq<nat>)
    requires CarriedAlong(s, t, user, move, docs)
    ensures t.revisions.Keys == s.revisions.Keys
  {
  }

  lemma OnlyRevisions(s: Library, t: Library, user: nat, move: Documents.Move, ids: seq<nat>)
    requires Taken(s, t, user, move, ids)
    ensures t == s.(revisions := t.revisions, log := t.log)
  {
  }

  /**
   * Submitting, approving or rejecting documents asks for a manager and documents that exist, in any state.
   * The documents move with one event each; with them move their drafts, or what is under review, with one
   * event each, newest first; nothing else changes.
   */
  lemma DocumentsMoved(s: Library, actor: Actor, move: Documents.Move, docs: seq<nat>)
    requires Consistent(s)
    ensures Apply(s, actor, MoveDocs(move, docs)).Some?
            <==> actor.manager && move != Supersede && forall d :: d in docs ==> d < |s.documents|
    ensures Apply(s, actor, MoveDocs(move, docs)).Some? ==> var t := Apply(s, actor, MoveDocs(move, docs)).value;
      && CarriedAlong(s, t, actor.user, move, docs)
      && exists to, kind :: DocLeads(move, to, kind) && DocumentsPut(s, t, docs, to, kind, false)
  {
    if actor.manager && move != Supersede && AllDocuments(s, docs) {
      var to, kind := DocTarget(move), DocKind(move);
      assert DocLeads(move, to, kind);
      var written := WriteDocuments(s, docs, kind, to, false);
      assert forall r :: r in s.revisions ==> RevisionOk(r, s.revisions[r], s.documents, s.next);
      WrittenPut(s, docs, kind, to, false);
      EachCarried(written, actor, move, docs);
      var t := MoveEach(written, actor, move, docs).value;
      assert Apply(s, actor, MoveDocs(move, docs)) == Some(t);
      hide WriteDocuments, MoveEach, Consistent, DocTarget, DocKind, DocLeads;
      CarriedFrom(s, written, t, actor.user, move, docs);
      PutFrom(s, written, t, docs, to, kind);
    }
  }

  lemma CarriedFrom(s: Library, written: Library, t: Library, user: nat, move: Documents.Move, docs: seq<nat>)
    requires written == s.(documents := written.documents, docLog := written.docLog)
    requires CarriedAlong(written, t, user, move, docs)
    ensures CarriedAlong(s, t, user, move, docs)
  {
    forall k: nat | k < |t.log| - |s.log|
      ensures Added(s, t, k) == Added(written, t, k) && Tells(s, docs, move, Added(s, t, k))
    {
      assert Tells(written, docs, move, Added(written, t, k));
    }
    forall r | r in s.revisions && Told(written, t, r)
      ensures Told(s, t, r)
    {
      var k: nat :| k < |t.log| - |s.log| && Added(written, t, k).record == r;
      assert Added(s, t, k).record == r;
    }
    hide Tells, MovesOn, Carried, Told;
  }

  lemma PutFrom(s: Library, written: Library, t: Library, docs: seq<nat>, to: DocState, kind: Kind)
    requires DocumentsPut(s, written, docs, to, kind, false)
    requires t.documents == written.documents && t.docLog == written.docLog
    ensures DocumentsPut(s, t, docs, to, kind, false)
  {
  }
}
