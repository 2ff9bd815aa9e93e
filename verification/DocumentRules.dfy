/** Documents and revisions in the words of their users: what each action asks, and everything it writes. */
module DocumentRules {
  import opened Common
  import opened EventLog
  import opened Documents
  import opened DocumentRuns
  import Decimal
  import RevisionNames

  // ----- which revisions move, and where -----

  /** The moves of revisions, with the kind of event each writes. */
  predicate Leads(move: Documents.Move, from: RevState, to: RevState, kind: Kind) {
    || (move == Submit && from in {Draft, Rejected} && to == UnderReview && kind == Workflow)
    || (move == Approve && from == UnderReview && to == Approved && kind == Approval)
    || (move == Reject && from == UnderReview && to == Rejected && kind == Review)
    || (move == Supersede && from == Active && to == Superseded && kind == Workflow)
  }

  predicate Starts(move: Documents.Move, from: RevState) {
    match move
    case Submit => from == Draft || from == Rejected
    case Approve => from == UnderReview
    case Reject => from == UnderReview
    case Supersede => from == Active
  }

  /** A revision that moves: its state, and the approver where it is approved; all else stays. */
  predicate MovesOn(move: Documents.Move, user: nat, before: Revision, after: Revision) {
    && (exists kind :: Leads(move, before.state, after.state, kind))
    && after.approver == (if move == Approve then Some(user) else before.approver)
    && after == before.(state := after.state, approver := after.approver)
  }

  /** One event for each of some revisions, from the state it had. */
  predicate TellsEach(s: Library, t: Library, move: Documents.Move, ids: seq<nat>) {
    && |t.log| == |s.log| + |ids| && s.log <= t.log
    && forall i :: 0 <= i < |ids| ==>
         && ids[i] in s.revisions
         && var e := t.log[|s.log| + i];
            e.Change? && e.record == ids[i] && e.previous == s.revisions[ids[i]].state
            && Leads(move, e.previous, e.next, e.kind)
  }

  lemma LeadsExactly(move: Documents.Move, from: RevState, to: RevState, kind: Kind)
    ensures Leads(move, from, to, kind) <==> Movable(move, from) && to == Target(move) && kind == KindOf(move)
    ensures Starts(move, from) <==> Movable(move, from)
  {
  }

  lemma MovedExactly(rev: Revision, move: Documents.Move, user: nat)
    requires Movable(move, rev.state)
    ensures MovesOn(move, user, rev, Moved(rev, move, user))
  {
    LeadsExactly(move, rev.state, Target(move), KindOf(move));
    hide Leads, Target, KindOf;
  }

  /** Whatever revisions an action takes, each moves and is told of, and nothing else changes. */
  predicate Taken(s: Library, t: Library, user: nat, move: Documents.Move, ids: seq<nat>) {
    && t == s.(revisions := t.revisions, log := t.log) && t.revisions.Keys == s.revisions.Keys
    && TellsEach(s, t, move, ids)
    && forall r :: r in s.revisions ==>
         if r in ids then MovesOn(move, user, s.revisions[r], t.revisions[r]) else t.revisions[r] == s.revisions[r]
  }

  lemma AllTaken(s: Library, user: nat, move: Documents.Move, ids: seq<nat>)
    requires Exist(s.revisions, ids) && forall r :: r in ids ==> Movable(move, s.revisions[r].state)
    ensures Taken(s, MoveAll(s, user, move, ids), user, move, ids)
  {
    var t := MoveAll(s, user, move, ids);
    forall i | 0 <= i < |ids|
      ensures var e := t.log[|s.log| + i];
        e.Change? && e.record == ids[i] && e.previous == s.revisions[ids[i]].state
        && Leads(move, e.previous, e.next, e.kind)
    {
      assert ids[i] in ids;
      LeadsExactly(move, s.revisions[ids[i]].state, Target(move), KindOf(move));
    }
    forall r | r in ids
      ensures MovesOn(move, user, s.revisions[r], Moved(s.revisions[r], move, user))
    {
      MovedExactly(s.revisions[r], move, user);
    }
    hide Movable, Target, KindOf, Leads, MovesOn, Moved;
  }

  predicate Precedes(ids: seq<nat>, a: nat, b: nat) {
    exists i, j :: 0 <= i < j < |ids| && ids[i] == a && ids[j] == b
  }

  /** Some revisions in the order listed. */
  predicate Follows(ids: seq<nat>, picked: seq<nat>) {
    forall i, j :: 0 <= i < j < |picked| ==> Precedes(ids, picked[i], picked[j])
  }

  /** The listed revisions in a state the move starts from, in the order listed. */
  ghost predicate Picks(revs: Revisions, ids: seq<nat>, move: Documents.Move, picked: seq<nat>) {
    && NoDuplicates(picked) && (forall r :: r in picked <==> (r in ids && r in revs && Starts(move, revs[r].state)))
    && Follows(ids, picked)
  }

  lemma {:induction false} SelectedOrdered(revs: Revisions, ids: seq<nat>, move: Documents.Move)
    requires Exist(revs, ids)
    ensures Follows(ids, Selected(revs, ids, move))
  {
    hide Movable;
    if ids != [] {
      var n := |ids| - 1;
      var earlier := Selected(revs, ids[..n], move);
      SelectedOrdered(revs, ids[..n], move);
      SelectedHolds(revs, ids[..n], move);
      var picked := Selected(revs, ids, move);
      forall i, j | 0 <= i < j < |picked|
        ensures Precedes(ids, picked[i], picked[j])
      {
        assert picked[i] == earlier[i];
        if j < |earlier| {
          assert picked[j] == earlier[j] && Precedes(ids[..n], earlier[i], earlier[j]);
          var k, l :| 0 <= k < l < n && ids[..n][k] == picked[i] && ids[..n][l] == picked[j];
          assert ids[k] == picked[i] && ids[l] == picked[j];
        } else {
          assert earlier[i] in earlier;
          var k :| 0 <= k < n && ids[..n][k] == picked[i];
          assert ids[k] == picked[i] && ids[n] == picked[j];
        }
      }
    }
  }

  lemma SelectedPicks(revs: Revisions, ids: seq<nat>, move: Documents.Move)
    requires Exist(revs, ids) && NoDuplicates(ids)
    ensures Picks(revs, ids, move, Selected(revs, ids, move))
  {
    SelectedHolds(revs, ids, move);
    SelectedOrdered(revs, ids, move);
    forall r | r in revs
      ensures Starts(move, revs[r].state) <==> Movable(move, revs[r].state)
    {
      LeadsExactly(move, revs[r].state, Target(move), KindOf(move));
    }
    hide Selected, Follows, Movable, Starts, NoDuplicates;
  }

  /**
   * Submitting, approving, rejecting or superseding distinct revisions asks for a manager alone. It takes
   * the listed ones that the move starts from, in order; each moves, is signed where it is approved, and
   * leaves one event.
   */
  lemma MovesWritten(s: Library, actor: Actor, move: Documents.Move, ids: seq<nat>)
    requires NoDuplicates(ids)
    ensures Apply(s, actor, Move(move, ids)).Some? <==> actor.manager && forall r :: r in ids ==> r in s.revisions
    ensures Apply(s, actor, Move(move, ids)).Some? ==>
      exists picked :: Picks(s.revisions, ids, move, picked)
        && Taken(s, Apply(s, actor, Move(move, ids)).value, actor.user, move, picked)
  {
    if actor.manager && Exist(s.revisions, ids) {
      var picked := Selected(s.revisions, ids, move);
      SelectedHolds(s.revisions, ids, move);
      AllTaken(s, actor.user, move, picked);
      SelectedPicks(s.revisions, ids, move);
      assert Apply(s, actor, Move(move, ids)) == Some(MoveAll(s, actor.user, move, picked));
      hide Selected, Picks, Taken, MoveAll;
    }
  }

  // ----- activation -----

  /** Another active revision of the same document. */
  predicate Outdated(revs: Revisions, r: nat, q: nat) {
    && q in revs && r in revs && q != r && revs[q].document == revs[r].document && revs[q].state == Active
  }

  /** What the activation of one revision writes. */
  ghost predicate Activates(s: Library, t: Library, today: int, r: nat)
    requires r in s.revisions
  {
    var before := s.revisions[r];
    && t.revisions.Keys == s.revisions.Keys && t.next == s.next && t.docLog == s.docLog
    && t.revisions[r] == before.(state := Active,
                                 effective := if before.effective == None then Some(today) else before.effective)
    && (forall q :: q in s.revisions && q != r ==>
          t.revisions[q]
          == if Outdated(s.revisions, r, q) then s.revisions[q].(state := Superseded) else s.revisions[q])
    && |t.documents| == |s.documents|
    && (forall d :: 0 <= d < |s.documents| ==>
          t.documents[d] == if d == before.document then Document(DocActive, Some(r), false) else s.documents[d])
    && (forall q: nat :: Outdated(s.revisions, r, q) ==>
          t.log == s.log + [Change(q, Workflow, Active, Superseded), Change(r, Approval, before.state, Active)])
    && ((forall q: nat :: !Outdated(s.revisions, r, q)) ==>
          t.log == s.log + [Change(r, Approval, before.state, Active)])
  }

  lemma OutgoingIs(s: Library, r: nat)
    requires Consistent(s) && r in s.revisions
    ensures forall q: nat :: Outdated(s.revisions, r, q) ==> Outgoing(s, r) == [q]
    ensures (forall q: nat :: !Outdated(s.revisions, r, q)) ==> Outgoing(s, r) == []
    ensures forall q :: q in Outgoing(s, r) <==> Outdated(s.revisions, r, q)
  {
    OutgoingHolds(s, r);
    var others := Outgoing(s, r);
    hide Outgoing;
    forall q: nat | Outdated(s.revisions, r, q)
      ensures others == [q]
    {
      forall p | p in others
        ensures p == q
      {
        assert RevisionOk(p, s.revisions[p], s.documents, s.next);
        assert RevisionOk(q, s.revisions[q], s.documents, s.next);
      }
      OnlyOne(others, q);
    }
    if others != [] {
      assert others[0] in others;
      assert Outdated(s.revisions, r, others[0]);
    }
  }

  lemma OnlyOne(s: seq<nat>, q: nat)
    requires NoDuplicates(s) && q in s && forall p :: p in s ==> p == q
    ensures s == [q]
  {
    assert ToSet(s) == {q};
    SetSize(s);
  }

  lemma OneActivates(s: Library, actor: Actor, r: nat)
    requires Consistent(s) && r in s.revisions && Activatable(s.revisions[r].state)
    ensures ActivateOne(s, actor, r).Some? && Activates(s, ActivateOne(s, actor, r).value, actor.today, r)
  {
    ActivationSucceeds(s, actor, r);
    OutgoingIs(s, r);
    hide Outgoing, ActivateOne, Consistent, Installed, Outdated;
    var others := Outgoing(s, r);
    forall q: nat | Outdated(s.revisions, r, q)
      ensures others == [q]
      ensures s.revisions[q].state == Active
    {
      assert s.revisions[q].state == Active by {
        hide *;
        OutdatedActive(s.revisions, r, q);
      }
    }
    SupersededOthers(s, actor, others);
    InstalledWrites(s, actor, r, MoveAll(s, actor.user, Supersede, others), others);
  }

  lemma OutdatedActive(revs: Revisions, r: nat, q: nat)
    requires Outdated(revs, r, q)
    ensures q in revs && q != r && revs[q].state == Active
  {
  }

  lemma SupersededOthers(s: Library, actor: Actor, others: seq<nat>)
    requires Exist(s.revisions, others)
    ensures var t := MoveAll(s, actor.user, Supersede, others);
      && t == s.(revisions := t.revisions, log := t.log) && t.revisions.Keys == s.revisions.Keys
      && (forall q :: q in s.revisions ==>
            t.revisions[q] == if q in others then s.revisions[q].(state := Superseded) else s.revisions[q])
      && (others == [] ==> t.log == s.log)
      && forall q: nat :: others == [q] ==> t.log == s.log + [Change(q, Workflow, s.revisions[q].state, Superseded)]
  {
  }

  lemma InstalledWrites(s: Library, actor: Actor, r: nat, t: Library, others: seq<nat>)
    requires r in s.revisions && s.revisions[r].document < |s.documents|
    requires t == s.(revisions := t.revisions, log := t.log) && t.revisions.Keys == s.revisions.Keys
    requires forall q :: q in s.revisions ==>
      t.revisions[q] == if q in others then s.revisions[q].(state := Superseded) else s.revisions[q]
    requires forall q: nat :: q in others <==> Outdated(s.revisions, r, q)
    requires others == [] ==> t.log == s.log
    requires forall q: nat :: Outdated(s.revisions, r, q) ==> t.log == s.log + [Change(q, Workflow, Active, Superseded)]
    requires (forall q: nat :: !Outdated(s.revisions, r, q)) ==> others == []
    ensures Activates(s, Installed(t, actor, r), actor.today, r)
  {
    assert !Outdated(s.revisions, r, r);
    hide Outdated;
    var u := Installed(t, actor, r);
    forall q: nat | Outdated(s.revisions, r, q)
      ensures u.log == s.log + [Change(q, Workflow, Active, Superseded),
                                Change(r, Approval, s.revisions[r].state, Active)]
    {
    }
  }

  lemma ActivateAlone(s: Library, actor: Actor, r: nat)
    ensures Apply(s, actor, Activate([r])) == if actor.manager then ActivateOne(s, actor, r) else None
  {
    hide ActivateOne;
    assert [r][..|[r]| - 1] == [];
    assert ActivateEach(s, actor, []) == Some(s);
  }

  /** A revision is activated by a manager when it is approved or active, in a library as the actions leave it. */
  lemma ActivationWritten(s: Library, actor: Actor, r: nat)
    requires Consistent(s)
    ensures Apply(s, actor, Activate([r])).Some?
            <==> actor.manager && r in s.revisions && s.revisions[r].state in {Approved, Active}
    ensures Apply(s, actor, Activate([r])).Some? ==> Activates(s, Apply(s, actor, Activate([r])).value, actor.today, r)
  {
    hide ActivateOne, Activates, Apply;
    ActivateAlone(s, actor, r);
    TurnSucceeds(s, actor, r);
    if r in s.revisions && Activatable(s.revisions[r].state) {
      OneActivates(s, actor, r);
    }
    hide Consistent;
  }

  /** A batch activates one revision after the other, and a failure undoes all. */
  lemma BatchInTurn(s: Library, actor: Actor, ids: seq<nat>, r: nat)
    requires actor.manager
    ensures Apply(s, actor, Activate([])) == Some(s)
    ensures var t := Apply(s, actor, Activate(ids));
      Apply(s, actor, Activate(ids + [r])) == if t.None? then None else Apply(t.value, actor, Activate([r]))
  {
    hide ActivateOne;
    var all := ids + [r];
    assert all[..|all| - 1] == ids && all[|all| - 1] == r;
    if ActivateEach(s, actor, ids).Some? {
      ActivateAlone(ActivateEach(s, actor, ids).value, actor, r);
    }
    assert ActivateEach(s, actor, []) == Some(s);
  }

  /** The revision a document activates: approved or active, none of them dated later, the last of that date. */
  predicate Newest(revs: Revisions, d: nat, w: nat) {
    && w in revs && revs[w].document == d && revs[w].state in {Approved, Active}
    && forall r :: r in revs && revs[r].document == d && revs[r].state in {Approved, Active} ==>
         revs[r].date < revs[w].date || (revs[r].date == revs[w].date && r <= w)
  }

  lemma NewestExactly(revs: Revisions, d: nat, w: nat)
    ensures NewestActivatable(revs, d, w) <==> Newest(revs, d, w)
  {
  }

  lemma NoOtherNewest(revs: Revisions, d: nat, v: nat, w: nat)
    requires Newest(revs, d, v) && Newest(revs, d, w)
    ensures v == w
  {
  }

  lemma FirstIsNewest(s: Library, d: nat, w: nat)
    requires Consistent(s)
    ensures Newest(s.revisions, d, w) <==> FirstActivatable(s.revisions, RevisionsOf(s.revisions, d, s.next)) == Some(w)
  {
    FirstIsNewestActivatable(s, d);
    var first := FirstActivatable(s.revisions, RevisionsOf(s.revisions, d, s.next));
    NewestExactly(s.revisions, d, w);
    if first.Some? {
      NewestExactly(s.revisions, d, first.value);
    }
    hide FirstActivatable, RevisionsOf, Consistent;
    if first.Some? && Newest(s.revisions, d, w) {
      NoOtherNewest(s.revisions, d, w, first.value);
    }
    hide Newer;
  }

  /** Activating a document is activating its newest approved or active revision, and fails if it has none. */
  lemma DocumentActivation(s: Library, actor: Actor, d: nat)
    requires Consistent(s) && actor.manager
    ensures forall w: nat :: Newest(s.revisions, d, w) ==>
      Apply(s, actor, ActivateDocs([d])) == Apply(s, actor, Activate([w])) && Apply(s, actor, Activate([w])).Some?
    ensures (forall w: nat :: !Newest(s.revisions, d, w)) ==> Apply(s, actor, ActivateDocs([d])) == None
  {
    var first := FirstActivatable(s.revisions, RevisionsOf(s.revisions, d, s.next));
    forall w: nat
      ensures Newest(s.revisions, d, w) <==> first == Some(w)
      ensures Newest(s.revisions, d, w) ==> w in s.revisions && Activatable(s.revisions[w].state)
    {
      FirstIsNewest(s, d, w);
    }
    hide FirstActivatable, RevisionsOf, ActivateOne, Consistent, Newest, ActivateDocuments, ActivateRevisions;
    ActivateSingle(s, actor, d);
    if first.Some? {
      ActivateAlone(s, actor, first.value);
      TurnSucceeds(s, actor, first.value);
    }
  }

  lemma DocumentsInTurn(s: Library, actor: Actor, docs: seq<nat>, d: nat)
    requires actor.manager
    ensures Apply(s, actor, ActivateDocs([])) == Some(s)
    ensures var t := Apply(s, actor, ActivateDocs(docs));
      Apply(s, actor, ActivateDocs(docs + [d])) == if t.None? then None else Apply(t.value, actor, ActivateDocs([d]))
  {
    hide ActivateOne, RevisionsOf, FirstActivatable;
    var all := docs + [d];
    assert all[..|all| - 1] == docs && all[|all| - 1] == d;
    if ActivateDocuments(s, actor, docs).Some? {
      ActivateSingle(ActivateDocuments(s, actor, docs).value, actor, d);
    }
  }

  // ----- creation and deletion -----

  /** A revision is a draft under the next id; its label is new in its document. */
  lemma RevisionCreated(s: Library, actor: Actor, d: nat, name: string, date: int)
    ensures Apply(s, actor, NewRevision(d, name, date)).Some?
            <==> d < |s.documents|
                 && forall r :: r in s.revisions && s.revisions[r].document == d ==> s.revisions[r].name != name
    ensures Apply(s, actor, NewRevision(d, name, date)).Some? ==>
      Apply(s, actor, NewRevision(d, name, date)).value
      == Library(s.documents, s.revisions[s.next := Revision(d, name, date, Draft, None, None)], s.next + 1, s.log,
                 s.docLog)
    ensures Apply(s, actor, NewDocument) == Some(s.(documents := s.documents + [Document(NewDoc, None, false)]))
  {
  }

  lemma RevisionsDeleted(s: Library, actor: Actor, ids: seq<nat>)
    ensures Apply(s, actor, Delete(ids)).Some?
            <==> forall r :: r in ids ==> r in s.revisions && s.revisions[r].state == Draft
    ensures Apply(s, actor, Delete(ids)).Some? ==> var t := Apply(s, actor, Delete(ids)).value;
      && t == s.(revisions := t.revisions)
      && (forall r :: r in t.revisions <==> (r in s.revisions && r !in ids))
      && forall r :: r in t.revisions ==> t.revisions[r] == s.revisions[r]
  {
  }

  /** The number of a document's revisions. */
  function CountOf(revs: Revisions, d: nat): nat {
    |set r | r in revs && revs[r].document == d|
  }

  predicate Labelled(revs: Revisions, d: nat, name: string) {
    exists r :: r in revs && revs[r].document == d && revs[r].name == name
  }

  /** One more than the greatest numeral among the labels, or than their count when there is no numeral. */
  ghost predicate NextLabel(revs: Revisions, d: nat, name: string) {
    && RevisionNames.TwoDigits(name)
    && (forall other :: Labelled(revs, d, other) && Decimal.IsNumber(other) ==>
          Decimal.Parse(other) < Decimal.Parse(name))
    && ((exists other :: Labelled(revs, d, other) && Decimal.IsNumber(other)) ==>
          exists other :: Labelled(revs, d, other) && Decimal.IsNumber(other)
            && Decimal.Parse(other) + 1 == Decimal.Parse(name))
    && ((forall other :: Labelled(revs, d, other) ==> !Decimal.IsNumber(other)) ==>
          Decimal.Parse(name) == CountOf(revs, d) + 1)
  }

  /** The labels of a document, as a list. */
  function LabelsOf(s: Library, d: nat): seq<string> {
    Names(s.revisions, RevisionsOf(s.revisions, d, s.next))
  }

  lemma LabelsOfHolds(s: Library, d: nat)
    requires Consistent(s)
    ensures |LabelsOf(s, d)| == CountOf(s.revisions, d)
    ensures forall other :: other in LabelsOf(s, d) <==> Labelled(s.revisions, d, other)
  {
    var ids := RevisionsOf(s.revisions, d, s.next);
    RevisionsOfHolds(s.revisions, d, s.next);
    SetSize(ids);
    hide RevisionsOf, NoDuplicates;
    assert forall r :: r in s.revisions ==> RevisionOk(r, s.revisions[r], s.documents, s.next);
    assert ToSet(ids) == set r | r in s.revisions && s.revisions[r].document == d;
    var labels := LabelsOf(s, d);
    forall other | Labelled(s.revisions, d, other)
      ensures other in labels
    {
      var r :| r in s.revisions && s.revisions[r].document == d && s.revisions[r].name == other;
      var k :| 0 <= k < |ids| && ids[k] == r;
      assert labels[k] == other;
    }
    forall other | other in labels
      ensures Labelled(s.revisions, d, other)
    {
      var k :| 0 <= k < |labels| && labels[k] == other;
      assert ids[k] in ids;
    }
  }

  lemma NextLabelIs(s: Library, d: nat)
    requires Consistent(s)
    ensures NextLabel(s.revisions, d, RevisionNames.NextRevisionName(LabelsOf(s, d)))
  {
    LabelsOfHolds(s, d);
    RevisionNames.NextExactly(LabelsOf(s, d));
    RevisionNames.NextIsFresh(LabelsOf(s, d));
    hide LabelsOf, Consistent, CountOf, Labelled, RevisionNames.NextRevisionName, Decimal.Parse, Decimal.IsNumber,
         RevisionNames.TwoDigits;
  }

  /** The next revision is a new one of today with the next label; a manager can always create it. */
  lemma NextRevisionWritten(s: Library, actor: Actor, d: nat)
    requires Consistent(s)
    ensures Apply(s, actor, NextRevision(d)).Some? <==> actor.manager && d < |s.documents|
    ensures Apply(s, actor, NextRevision(d)).Some? ==>
      exists name :: NextLabel(s.revisions, d, name)
        && Apply(s, actor, NextRevision(d)) == Apply(s, actor, NewRevision(d, name, actor.today))
  {
    NextRevisionIsFree(s, actor, d);
    NextLabelIs(s, d);
    var name := RevisionNames.NextRevisionName(LabelsOf(s, d));
    hide NextLabel, Consistent, RevisionsOf, RevisionNames.NextRevisionName, Create;
    assert actor.manager ==>
      Apply(s, actor, NextRevision(d)) == Apply(s, actor, NewRevision(d, name, actor.today));
  }
}
