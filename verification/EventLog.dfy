/** The append-only operational event log of addons/pm_qms_core/models/event.py. */
module EventLog {
  import opened Common

  datatype Kind = Workflow | Review | Approval | Closure | Effectiveness

  /** A state change of a record, or a remark about something else that has a previous and a new value. */
  datatype Event<S> =
    | Change(record: nat, kind: Kind, previous: S, next: S)
    | Remark(record: nat, kind: Kind, was: string, is_: string)

  /**
   * Following the state changes of one record from its first state: None when some change does not
   * start where the change before it ended.
   */
  function Replay<S(==)>(log: seq<Event<S>>, record: nat, start: S): Option<S> {
    if log == [] then Some(start)
    else
      var state, last := Replay(log[..|log| - 1], record, start), log[|log| - 1];
      if last.Remark? || last.record != record then state
      else if state == Some(last.previous) then Some(last.next)
      else None
  }

  lemma ReplayOne<S>(log: seq<Event<S>>, e: Event<S>, record: nat, start: S)
    ensures Replay(log + [e], record, start)
            == var state := Replay(log, record, start);
               if e.Remark? || e.record != record then state
               else if state == Some(e.previous) then Some(e.next)
               else None
  {
    assert (log + [e])[..|log|] == log;
  }

  /** Records without a change in a log have not moved. */
  lemma {:induction false} ReplayNone<S>(log: seq<Event<S>>, record: nat, start: S)
    requires forall e :: e in log && e.Change? ==> e.record != record
    ensures Replay(log, record, start) == Some(start)
  {
    if log != [] {
      ReplayNone(log[..|log| - 1], record, start);
    }
  }

  // ----- several records moved to one state -----

  /** The events of a batch: every record from the state it had before the batch. */
  function Entries<S>(records: seq<nat>, states: map<nat, S>, kind: Kind, to: S): (r: seq<Event<S>>)
    requires forall x :: x in records ==> x in states
    ensures |r| == |records|
  {
    seq(|records|, i requires 0 <= i < |records| => Change(records[i], kind, states[records[i]], to))
  }

  function Occurrences(records: seq<nat>, x: nat): nat {
    if records == [] then 0
    else Occurrences(records[..|records| - 1], x) + (if records[|records| - 1] == x then 1 else 0)
  }

  /**
   * What a batch does to one record's chain: nothing, one step, or a second step, wrong unless it is no step
   * at all.
   */
  lemma {:induction false} ReplayEntries<S>(log: seq<Event<S>>, records: seq<nat>, states: map<nat, S>, kind: Kind,
                                            to: S,
                                            x: nat, start: S)
    requires (forall r :: r in records ==> r in states) && x in states
    requires Replay(log, x, start) == Some(states[x])
    ensures Replay(log + Entries(records, states, kind, to), x, start)
            == match Occurrences(records, x)
               case 0 => Some(states[x])
               case 1 => Some(to)
               case _ => if states[x] == to then Some(to) else None
  {
    if records == [] {
      assert log + Entries(records, states, kind, to) == log;
    } else {
      var fewer, last := records[..|records| - 1], records[|records| - 1];
      ReplayEntries(log, fewer, states, kind, to, x, start);
      var e := Change(last, kind, states[last], to);
      assert Entries(records, states, kind, to) == Entries(fewer, states, kind, to) + [e];
      assert log + Entries(records, states, kind, to) == log + Entries(fewer, states, kind, to) + [e];
      ReplayOne(log + Entries(fewer, states, kind, to), e, x, start);
    }
  }

  /** A chain that does not lead to the record's state never recovers: the next event starts from the state. */
  lemma {:induction false} ReplayBroken<S>(log: seq<Event<S>>, records: seq<nat>, states: map<nat, S>, kind: Kind,
                                           to: S, x: nat, start: S)
    requires (forall r :: r in records ==> r in states) && x in states
    requires Replay(log, x, start) != Some(states[x])
    ensures Replay(log + Entries(records, states, kind, to), x, start)
            == if x in records then None else Replay(log, x, start)
  {
    if records == [] {
      assert log + Entries(records, states, kind, to) == log;
    } else {
      var fewer, last := records[..|records| - 1], records[|records| - 1];
      ReplayBroken(log, fewer, states, kind, to, x, start);
      var e := Change(last, kind, states[last], to);
      assert Entries(records, states, kind, to) == Entries(fewer, states, kind, to) + [e];
      assert log + Entries(records, states, kind, to) == log + Entries(fewer, states, kind, to) + [e];
      ReplayOne(log + Entries(fewer, states, kind, to), e, x, start);
      assert records == fewer + [last];
    }
  }

  lemma {:induction false} OccurrencesOfDistinct(records: seq<nat>, x: nat)
    ensures Occurrences(records, x) == 0 <==> x !in records
    ensures NoDuplicates(records) ==> Occurrences(records, x) <= 1
  {
    if records != [] {
      var fewer, last := records[..|records| - 1], records[|records| - 1];
      OccurrencesOfDistinct(fewer, x);
      assert records == fewer + [last];
      if NoDuplicates(records) && last == x {
        assert x !in fewer;
      }
    }
  }

  /** For distinct records a batch moves exactly the chains of its records. */
  lemma ReplayBatch<S>(log: seq<Event<S>>, records: seq<nat>, states: map<nat, S>, kind: Kind, to: S, x: nat, start: S)
    requires (forall r :: r in records ==> r in states) && x in states && NoDuplicates(records)
    requires Replay(log, x, start) == Some(states[x])
    ensures Replay(log + Entries(records, states, kind, to), x, start) == Some(if x in records then to else states[x])
  {
    hide NoDuplicates, Replay, Entries, Occurrences;
    ReplayEntries(log, records, states, kind, to, x, start);
    OccurrencesOfDistinct(records, x);
  }

  /** Events about other records leave a chain alone. */
  lemma {:induction false} ReplayOthers<S>(log: seq<Event<S>>, more: seq<Event<S>>, x: nat, start: S)
    requires forall e :: e in more && e.Change? ==> e.record != x
    ensures Replay(log + more, x, start) == Replay(log, x, start)
  {
    if more == [] {
      assert log + more == log;
    } else {
      ReplayOthers(log, more[..|more| - 1], x, start);
      assert log + more == log + more[..|more| - 1] + [more[|more| - 1]];
      ReplayOne(log + more[..|more| - 1], more[|more| - 1], x, start);
    }
  }
}
