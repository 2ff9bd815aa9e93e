/** The stored audits and findings, updated in place by the workflow actions. */
module AuditOffice {
  import opened Common
  import opened EventLog
  import opened StateTable
  import opened Audits

  class Office {
    var audits: map<nat, Audit>
    var findings: map<nat, Finding>
    const auditLedger: Ledger<AuditState>
    const findingLedger: Ledger<FindingState>

    function Contents(): Books
      reads this, auditLedger, findingLedger
    {
      Books(audits, auditLedger.Contents(), findings, findingLedger.Contents())
    }

    constructor ()
      ensures fresh(auditLedger) && fresh(findingLedger) && Contents() == Empty()
    {
      audits, findings := map[], map[];
      auditLedger := new Ledger();
      findingLedger := new Ledger();
    }

    /** _transition of audits, with the field values that go along with the state. */
    method MoveAudits(actor: Actor, values: map<nat, Audit>, ids: seq<nat>, kind: Kind, to: AuditState)
      returns (ok: bool)
      modifies this, auditLedger
      ensures var moved := old(Audits.MoveAudits(Contents(), actor, values, ids, kind, to));
        ok == moved.Some? && Contents() == if ok then moved.value else old(Contents())
    {
      if !actor.manager {
        return false;
      }
      ok := auditLedger.Transition(AuditMay, ids, kind, to);
      if ok {
        audits := values;
      }
    }

    /** action_mark_ready */
    method MarkReady(actor: Actor, ids: seq<nat>) returns (ok: bool)
      modifies this, auditLedger
      ensures var after := old(Apply(Contents(), actor, Action.MarkReady(ids)));
        ok == after.Some? && Contents() == if ok then after.value else old(Contents())
    {
      hide Audits.MoveAudits, AllGuarded;
      if !AllGuarded(audits, Action.MarkReady(ids), ids, actor.today) {
        return false;
      }
      ok := MoveAudits(actor, audits, ids, Workflow, Ready);
    }

    /** action_start */
    method Start(actor: Actor, ids: seq<nat>) returns (ok: bool)
      modifies this, auditLedger
      ensures var after := old(Apply(Contents(), actor, Action.Start(ids)));
        ok == after.Some? && Contents() == if ok then after.value else old(Contents())
    {
      hide Audits.MoveAudits, AllGuarded;
      if !AllGuarded(audits, Action.Start(ids), ids, actor.today) {
        return false;
      }
      ok := MoveAudits(actor, WithStart(audits, ids, actor.today), ids, Workflow, InProgress);
    }

    /** action_complete */
    method Complete(actor: Actor, ids: seq<nat>) returns (ok: bool)
      modifies this, auditLedger
      ensures var after := old(Apply(Contents(), actor, Action.Complete(ids)));
        ok == after.Some? && Contents() == if ok then after.value else old(Contents())
    {
      hide Audits.MoveAudits, AllGuarded;
      if !AllGuarded(audits, Action.Complete(ids), ids, actor.today) {
        return false;
      }
      ok := MoveAudits(actor, audits, ids, Closure, Completed);
    }

    /** action_record_independence: one write, then one remark a record with the value it had. */
    method RecordIndependence(actor: Actor, ids: seq<nat>) returns (ok: bool)
      modifies this, auditLedger
      ensures var after := old(Apply(Contents(), actor, Action.RecordIndependence(ids)));
        ok == after.Some? && Contents() == if ok then after.value else old(Contents())
    {
      hide Independence, Confirmed;
      if !actor.manager || !Known(audits, ids) {
        return false;
      }
      var previous := audits;
      audits := Confirmed(audits, ids, true);
      ghost var before := auditLedger.Contents();
      var i := 0;
      while i < |ids|
        invariant 0 <= i <= |ids| && audits == Confirmed(previous, ids, true)
        invariant findings == old(findings) && findingLedger.Contents() == old(findingLedger.Contents())
        invariant auditLedger.Contents() == Remarks(before, previous, ids[..i], "confirmed")
      {
        auditLedger.Comment(ids[i], Review, Independence(previous[ids[i]]), "confirmed");
        assert ids[..i + 1][..i] == ids[..i];
        i := i + 1;
      }
      assert ids[..i] == ids;
      ok := true;
    }

    /** action_create_ncr */
    method RaiseNcr(actor: Actor, x: nat) returns (ok: bool)
      modifies this, findingLedger
      ensures var after := old(Apply(Contents(), actor, Action.RaiseNcr(x)));
        ok == after.Some? && Contents() == if ok then after.value else old(Contents())
    {
      if !MayCreateNcr(Contents(), actor, x) {
        return false;
      }
      ghost var before := findingLedger.Contents();
      assert [x][..0] == [] && Turns(Always, before, [x][..0], Workflow, ActionRequired) == Some(before);
      findings := findings[x := findings[x].(ncr := DraftNcr)];
      ok := findingLedger.Transition(Always, [x], Workflow, ActionRequired);
    }
  }
}
