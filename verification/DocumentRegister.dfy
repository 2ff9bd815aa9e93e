/** The stored documents, updated in place by the workflow actions. */
module DocumentRegister {
  import opened Common
  import opened EventLog
  import opened Documents
  import opened DocumentRuns

  class Register {
    var documents: seq<Document>
    var revisions: Revisions
    var next: nat
    var log: seq<Event<RevState>>
    var docLog: seq<Event<DocState>>

    function Contents(): Library reads this { Library(documents, revisions, next, log, docLog) }

    constructor ()
      ensures Contents() == Empty() && Consistent(Contents()) && LogOk(Contents())
    {
      documents, revisions, next, log, docLog := [], map[], 0, [], [];
      new;
      EmptyOk();
    }

    method Restore(s: Library)
      modifies this
      ensures Contents() == s
    {
      documents, revisions, next, log, docLog := s.documents, s.revisions, s.next, s.log, s.docLog;
    }

    /** Writes a batch at once and then appends its events one by one; the log is only ever appended to. */
    method WriteAndLog(who: nat, move: Documents.Move, ids: seq<nat>)
      requires Exist(revisions, ids)
      modifies this`revisions, this`log
      ensures Contents() == MoveAll(old(Contents()), who, move, ids)
    {
      var previous := States(revisions);
      revisions := WriteMoved(revisions, ids, move, who);
      hide KindOf, Target, WriteMoved, States;
      var i := 0;
      assert old(log) + Entries(ids, previous, KindOf(move), Target(move))[..0] == log;
      while i < |ids|
        invariant 0 <= i <= |ids|
        invariant revisions == WriteMoved(old(revisions), ids, move, who)
        invariant log == old(log) + Entries(ids, previous, KindOf(move), Target(move))[..i]
      {
        log := log + [Change(ids[i], KindOf(move), previous[ids[i]], Target(move))];
        i := i + 1;
      }
    }

    /** action_submit_for_review, action_approve, action_reject and action_supersede of revisions. */
    method MoveRevisions(actor: Actor, move: Documents.Move, ids: seq<nat>) returns (ok: bool)
      modifies this
      ensures ok == old(Documents.MoveRevisions(Contents(), actor, move, ids).Some?)
      ensures Contents() == if ok then old(Documents.MoveRevisions(Contents(), actor, move, ids).value)
                            else old(Contents())
    {
      hide Selected, MoveAll;
      if !actor.manager || !Exist(revisions, ids) {
        return false;
      }
      WriteAndLog(actor.user, move, Selected(revisions, ids, move));
      return true;
    }

    /** One turn of action_activate, with the uniqueness constraint checked on the write. */
    method ActivateOne(actor: Actor, r: nat) returns (ok: bool)
      modifies this
      ensures ok == old(Documents.ActivateOne(Contents(), actor, r).Some?)
      ensures ok ==> Contents() == old(Documents.ActivateOne(Contents(), actor, r).value)
    {
      hide MoveAll, RevisionsOf, OtherActive;
      if r !in revisions || revisions[r].document >= |documents| || !Activatable(revisions[r].state) {
        return false;
      }
      var d := revisions[r].document;
      KeepsDocuments(Contents(), actor.user, OtherActive(revisions, RevisionsOf(revisions, d, next), r));
      WriteAndLog(actor.user, Supersede, OtherActive(revisions, RevisionsOf(revisions, d, next), r));
      if SecondActive(revisions, d, r) {
        return false;
      }
      var rev := revisions[r];
      revisions := revisions[r := rev.(state := Active, effective := if rev.effective.Some? then rev.effective
                                                                     else Some(actor.today))];
      documents := documents[rev.document := Document(DocActive, Some(r), false)];
      log := log + [Change(r, Approval, rev.state, Active)];
      return true;
    }

    /** action_activate of revisions: turn by turn, all of them or none. */
    method Activate(actor: Actor, ids: seq<nat>) returns (ok: bool)
      modifies this
      ensures ok == old(ActivateRevisions(Contents(), actor, ids).Some?)
      ensures Contents() == if ok then old(ActivateRevisions(Contents(), actor, ids).value) else old(Contents())
    {
      hide Documents.ActivateOne;
      if !actor.manager {
        return false;
      }
      var before := Contents();
      var i := 0;
      assert ActivateEach(before, actor, ids[..0]) == Some(before);
      while i < |ids|
        invariant 0 <= i <= |ids|
        invariant ActivateEach(before, actor, ids[..i]) == Some(Contents())
      {
        EachStep(before, actor, ids, i);
        ok := ActivateOne(actor, ids[i]);
        if !ok {
          Restore(before);
          return;
        }
        i := i + 1;
      }
      assert ids[..i] == ids;
      ok := true;
    }

    /** action_activate of documents. */
    method ActivateDocuments(actor: Actor, docs: seq<nat>) returns (ok: bool)
      modifies this
      ensures ok == old(Documents.ActivateDocuments(Contents(), actor, docs).Some?)
      ensures Contents() == if ok then old(Documents.ActivateDocuments(Contents(), actor, docs).value)
                            else old(Contents())
    {
      hide Documents.ActivateOne, RevisionsOf, FirstActivatable;
      if !actor.manager {
        return false;
      }
      var before := Contents();
      var i := 0;
      assert Documents.ActivateDocuments(before, actor, docs[..0]) == Some(before);
      while i < |docs|
        invariant 0 <= i <= |docs|
        invariant Documents.ActivateDocuments(before, actor, docs[..i]) == Some(Contents())
      {
        DocumentStep(before, actor, docs, i);
        var r := FirstActivatable(revisions, RevisionsOf(revisions, docs[i], next));
        ok := false;
        if r.Some? {
          ok := ActivateOne(actor, r.value);
        }
        if !ok {
          Restore(before);
          return;
        }
        i := i + 1;
      }
      assert docs[..i] == docs;
      ok := true;
    }

    /**
     * action_submit_for_review, action_approve and action_reject of documents: the states are written at
     * once, then each document logs its own event and moves its revisions.
     */
    method MoveDocuments(actor: Actor, move: Documents.Move, docs: seq<nat>) returns (ok: bool)
      modifies this
      ensures ok == old(Documents.MoveDocuments(Contents(), actor, move, docs).Some?)
      ensures Contents() == if ok then old(Documents.MoveDocuments(Contents(), actor, move, docs).value)
                            else old(Contents())
    {
      hide Documents.MoveRevisions, RevisionsOf, Along, WriteState, DocStates, DocKind, DocTarget;
      if !actor.manager || move.Supersede? || !AllDocuments(Contents(), docs) {
        return false;
      }
      var before := Contents();
      var previous := DocStates(documents);
      ghost var written := WriteDocuments(before, docs, DocKind(move), DocTarget(move), false);
      ghost var entries := Entries(docs, previous, DocKind(move), DocTarget(move));
      documents := WriteState(documents, docs, DocTarget(move), false);
      var i := 0;
      assert MoveEach(written, actor, move, docs[..0]) == Some(written);
      assert docLog + entries == written.docLog && docLog == before.docLog + entries[..0];
      while i < |docs|
        invariant 0 <= i <= |docs|
        invariant docLog == before.docLog + entries[..i]
        invariant MoveEach(written, actor, move, docs[..i]) == Some(Contents().(docLog := written.docLog))
      {
        docLog := docLog + [Change(docs[i], DocKind(move), previous[docs[i]], DocTarget(move))];
        MoveStep(written, actor, move, docs, i);
        var along := Along(revisions, RevisionsOf(revisions, docs[i], next), move);
        LogApart(Contents(), actor, move, along, written.docLog);
        ok := MoveRevisions(actor, move, along);
        if !ok {
          Restore(before);
          return;
        }
        i := i + 1;
      }
      assert docs[..i] == docs && entries[..i] == entries;
      ok := true;
    }
  }

  /** Moving revisions neither reads nor writes the events of documents. */
  lemma LogApart(s: Library, actor: Actor, move: Documents.Move, ids: seq<nat>, docLog: seq<Event<DocState>>)
    ensures Documents.MoveRevisions(s.(docLog := docLog), actor, move, ids)
            == match Documents.MoveRevisions(s, actor, move, ids)
               case None => None
               case Some(t) => Some(t.(docLog := docLog))
    ensures Documents.MoveRevisions(s, actor, move, ids).Some? ==>
      Documents.MoveRevisions(s, actor, move, ids).value.docLog == s.docLog
  {
    hide Selected, WriteMoved, States, KindOf, Target;
  }

  lemma KeepsDocuments(s: Library, who: nat, ids: seq<nat>)
    requires Exist(s.revisions, ids)
    ensures var t := MoveAll(s, who, Supersede, ids);
      t.documents == s.documents && t.next == s.next && t.revisions.Keys == s.revisions.Keys
      && forall r :: r in s.revisions ==> t.revisions[r].document == s.revisions[r].document
  {
  }

  /** The loop of a batch, one turn on; a turn that fails makes the whole batch fail. */
  lemma EachStep(s: Library, actor: Actor, ids: seq<nat>, i: nat)
    requires i < |ids| && ActivateEach(s, actor, ids[..i]).Some?
    ensures var turn := Documents.ActivateOne(ActivateEach(s, actor, ids[..i]).value, actor, ids[i]);
      && ActivateEach(s, actor, ids[..i + 1]) == turn
      && (turn.None? ==> ActivateEach(s, actor, ids).None?)
  {
    hide Documents.ActivateOne;
    assert ids[..i + 1][..i] == ids[..i];
    if Documents.ActivateOne(ActivateEach(s, actor, ids[..i]).value, actor, ids[i]).None? {
      EachFails(s, actor, ids, i + 1);
    }
  }

  lemma {:induction false} EachFails(s: Library, actor: Actor, ids: seq<nat>, i: nat)
    requires i <= |ids| && ActivateEach(s, actor, ids[..i]).None?
    ensures ActivateEach(s, actor, ids).None?
    decreases |ids|
  {
    hide Documents.ActivateOne;
    if i < |ids| {
      assert ids[..|ids| - 1][..i] == ids[..i];
      EachFails(s, actor, ids[..|ids| - 1], i);
    } else {
      assert ids[..i] == ids;
    }
  }

  lemma DocumentStep(s: Library, actor: Actor, docs: seq<nat>, i: nat)
    requires actor.manager && i < |docs| && Documents.ActivateDocuments(s, actor, docs[..i]).Some?
    ensures var t := Documents.ActivateDocuments(s, actor, docs[..i]).value;
      var r := FirstActivatable(t.revisions, RevisionsOf(t.revisions, docs[i], t.next));
      var turn := if r.None? then None else Documents.ActivateOne(t, actor, r.value);
      && Documents.ActivateDocuments(s, actor, docs[..i + 1]) == turn
      && (turn.None? ==> Documents.ActivateDocuments(s, actor, docs).None?)
  {
    hide Documents.ActivateOne, FirstActivatable, RevisionsOf;
    assert docs[..i + 1][..i] == docs[..i];
    if Documents.ActivateDocuments(s, actor, docs[..i + 1]).None? {
      DocumentFails(s, actor, docs, i + 1);
    }
  }

  lemma {:induction false} DocumentFails(s: Library, actor: Actor, docs: seq<nat>, i: nat)
    requires i <= |docs| && Documents.ActivateDocuments(s, actor, docs[..i]).None?
    ensures Documents.ActivateDocuments(s, actor, docs).None?
    decreases |docs|
  {
    hide Documents.ActivateOne, FirstActivatable, RevisionsOf;
    if i < |docs| {
      assert docs[..|docs| - 1][..i] == docs[..i];
      DocumentFails(s, actor, docs[..|docs| - 1], i);
    } else {
      assert docs[..i] == docs;
    }
  }

  lemma MoveStep(s: Library, actor: Actor, move: Documents.Move, docs: seq<nat>, i: nat)
    requires i < |docs| && MoveEach(s, actor, move, docs[..i]).Some?
    ensures var t := MoveEach(s, actor, move, docs[..i]).value;
      var along := Along(t.revisions, RevisionsOf(t.revisions, docs[i], t.next), move);
      var turn := Documents.MoveRevisions(t, actor, move, along);
      && MoveEach(s, actor, move, docs[..i + 1]) == turn
      && (turn.None? ==> MoveEach(s, actor, move, docs).None?)
  {
    hide Documents.MoveRevisions, Along, RevisionsOf;
    assert docs[..i + 1][..i] == docs[..i];
    if MoveEach(s, actor, move, docs[..i + 1]).None? {
      MoveFails(s, actor, move, docs, i + 1);
    }
  }

  lemma {:induction false} MoveFails(s: Library, actor: Actor, move: Documents.Move, docs: seq<nat>, i: nat)
    requires i <= |docs| && MoveEach(s, actor, move, docs[..i]).None?
    ensures MoveEach(s, actor, move, docs).None?
    decreases |docs|
  {
    hide Documents.MoveRevisions, Along, RevisionsOf;
    if i < |docs| {
      assert docs[..|docs| - 1][..i] == docs[..i];
      MoveFails(s, actor, move, docs[..|docs| - 1], i);
    } else {
      assert docs[..i] == docs;
    }
  }
}
