/** The stored CAPAs, their analysis slots created and updated in place. */
module CapaCabinet {
  import opened Common
  import opened EventLog
  import opened StateTable
  import opened Capas

  class Cabinet {
    var capas: map<nat, Capa>
    const ledger: Ledger<CapaState>

    function Contents(): File
      reads this, ledger
    {
      File(capas, ledger.Contents())
    }

    constructor ()
      ensures fresh(ledger) && Contents() == Empty()
    {
      capas := map[];
      ledger := new Ledger();
    }

    /** _initialize_analysis_structure for the 5 Why method: one create call with all the missing slots. */
    method InitializeWhys(x: nat) returns (ok: bool)
      requires x in capas && capas[x].method_.FiveWhy?
      modifies this
      ensures ok == old(Initialize(capas[x])).Some?
      ensures capas == if ok then old(capas)[x := old(Initialize(capas[x])).value] else old(capas)
    {
      hide WhyIntegrity, Sequences, NewWhys;
      var c := capas[x];
      var missing: seq<int> := [];
      var i := 0;
      assert MissingWhys(c.whys, SLOTS[..0]) == [];
      while i < |SLOTS|
        invariant 0 <= i <= |SLOTS| && capas == old(capas) && missing == MissingWhys(c.whys, SLOTS[..i])
      {
        assert SLOTS[..i + 1][..i] == SLOTS[..i];
        if SLOTS[i] !in Sequences(c.whys) {
          missing := missing + [SLOTS[i]];
        }
        i := i + 1;
      }
      assert SLOTS[..i] == SLOTS;
      if missing != [] {
        var created := c.whys + NewWhys(missing);
        if !WhyIntegrity(created) {
          return false;
        }
        capas := capas[x := c.(whys := created)];
      } else {
        assert capas == capas[x := c];
      }
      ok := true;
    }

    /** action_start_analysis: check and initialize each CAPA, then move them all. */
    method StartAnalysis(actor: Actor, ids: seq<nat>) returns (ok: bool)
      modifies this, ledger
      ensures var after := old(Start(Contents(), actor, ids));
        ok == after.Some? && Contents() == if ok then after.value else old(Contents())
    {
      hide Initialize, ValidSource, Turns;
      if !actor.manager {
        return false;
      }
      var before := capas;
      var i := 0;
      assert InitializeEach(before, ids[..0]) == Some(before);
      while i < |ids|
        invariant 0 <= i <= |ids| && ledger.Contents() == old(ledger.Contents())
        invariant InitializeEach(before, ids[..i]) == Some(capas)
      {
        EachStep(before, ids, i);
        var x := ids[i];
        ok := x in capas && ValidSource(capas[x].source) && capas[x].prerequisites;
        if ok {
          if capas[x].method_.FiveWhy? {
            ok := InitializeWhys(x);
          } else if Initialize(capas[x]).Some? {
            capas := capas[x := Initialize(capas[x]).value];
          } else {
            ok := false;
          }
        }
        if !ok {
          capas := before;
          return;
        }
        i := i + 1;
      }
      assert ids[..i] == ids;
      ok := ledger.Transition(Free, ids, Workflow, Analysis);
      if !ok {
        capas := before;
      }
    }
  }

  lemma EachStep(capas: map<nat, Capa>, ids: seq<nat>, i: nat)
    requires i < |ids| && InitializeEach(capas, ids[..i]).Some?
    ensures var now, x := InitializeEach(capas, ids[..i]).value, ids[i];
      if x !in now || !ValidSource(now[x].source) || !now[x].prerequisites || Initialize(now[x]).None?
      then InitializeEach(capas, ids[..i + 1]).None? && InitializeEach(capas, ids).None?
      else InitializeEach(capas, ids[..i + 1]) == Some(now[x := Initialize(now[x]).value])
  {
    hide Initialize, ValidSource;
    assert ids[..i + 1][..i] == ids[..i];
    if InitializeEach(capas, ids[..i + 1]).None? {
      EachFails(capas, ids, i + 1);
    }
  }

  lemma {:induction false} EachFails(capas: map<nat, Capa>, ids: seq<nat>, i: nat)
    requires i <= |ids| && InitializeEach(capas, ids[..i]).None?
    ensures InitializeEach(capas, ids).None?
    decreases |ids|
  {
    hide Initialize, ValidSource;
    if i < |ids| {
      assert ids[..|ids| - 1][..i] == ids[..i];
      EachFails(capas, ids[..|ids| - 1], i);
    } else {
      assert ids[..i] == ids;
    }
  }
}
