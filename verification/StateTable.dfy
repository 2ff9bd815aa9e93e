/** Records whose workflow state changes turn by turn, each change leaving an event (the _transition methods). */
module StateTable {
  import opened Common
  import opened EventLog

  /** The state of each record, the events so far, and the next free record number. */
  datatype Table<S> = Table(states: map<nat, S>, log: seq<Event<S>>, next: nat)

  /** A transition rule: which states may move to which. */
  type Rule<!S> = (S, S) -> bool

  /** One turn of _transition: refused when the record is missing or the rule forbids the move. */
  function Turn<S>(rule: Rule<S>, t: Table<S>, x: nat, kind: Kind, to: S): Option<Table<S>> {
    if x !in t.states || !rule(t.states[x], to) then None
    else Some(Table(t.states[x := to], t.log + [Change(x, kind, t.states[x], to)], t.next))
  }

  /** The loop of _transition; an error in any turn rolls all of it back. */
  function Turns<S>(rule: Rule<S>, t: Table<S>, ids: seq<nat>, kind: Kind, to: S): Option<Table<S>> {
    if ids == [] then Some(t)
    else
      var earlier := Turns(rule, t, ids[..|ids| - 1], kind, to);
      if earlier.None? then None else Turn(rule, earlier.value, ids[|ids| - 1], kind, to)
  }

  function Add<S>(t: Table<S>, start: S): Table<S> {
    Table(t.states[t.next := start], t.log, t.next + 1)
  }

  function Remove<S>(t: Table<S>, ids: seq<nat>): Table<S> {
    t.(states := map x | x in t.states && x !in ids :: t.states[x])
  }

  function Note<S>(t: Table<S>, x: nat, kind: Kind, was: string, is_: string): Table<S> {
    t.(log := t.log + [Remark(x, kind, was, is_)])
  }

  // ----- chains -----

  /** Events are about numbers given out, and each record's changes lead from the start to its state. */
  ghost predicate Sound<S(!new)>(t: Table<S>, start: S) {
    && (forall e :: e in t.log && e.Change? ==> e.record < t.next)
    && (forall x :: x in t.states ==> x < t.next && Replay(t.log, x, start) == Some(t.states[x]))
  }

  lemma TurnSound<S(!new)>(rule: Rule<S>, t: Table<S>, x: nat, kind: Kind, to: S, start: S)
    requires Sound(t, start) && Turn(rule, t, x, kind, to).Some?
    ensures var u := Turn(rule, t, x, kind, to).value; Sound(u, start) && t.log <= u.log && u.next == t.next
  {
    var u := Turn(rule, t, x, kind, to).value;
    forall y | y in u.states
      ensures y < u.next && Replay(u.log, y, start) == Some(u.states[y])
    {
      ReplayOne(t.log, Change(x, kind, t.states[x], to), y, start);
    }
    hide Replay;
  }

  lemma {:induction false} TurnsSound<S(!new)>(rule: Rule<S>, t: Table<S>, ids: seq<nat>, kind: Kind, to: S, start: S)
    requires Sound(t, start) && Turns(rule, t, ids, kind, to).Some?
    ensures var u := Turns(rule, t, ids, kind, to).value; Sound(u, start) && t.log <= u.log && u.next == t.next
    decreases |ids|
  {
    hide Sound, Turn;
    if ids != [] {
      TurnsSound(rule, t, ids[..|ids| - 1], kind, to, start);
      TurnSound(rule, Turns(rule, t, ids[..|ids| - 1], kind, to).value, ids[|ids| - 1], kind, to, start);
    }
  }

  lemma AddSound<S(!new)>(t: Table<S>, start: S)
    requires Sound(t, start)
    ensures Sound(Add(t, start), start)
  {
    ReplayNone(t.log, t.next, start);
    hide Replay;
  }

  lemma RemoveSound<S(!new)>(t: Table<S>, ids: seq<nat>, start: S)
    requires Sound(t, start)
    ensures Sound(Remove(t, ids), start)
  {
    hide Replay;
  }

  lemma NoteSound<S(!new)>(t: Table<S>, x: nat, kind: Kind, was: string, is_: string, start: S)
    requires Sound(t, start)
    ensures Sound(Note(t, x, kind, was, is_), start)
  {
    var u := Note(t, x, kind, was, is_);
    forall y | y in u.states
      ensures Replay(u.log, y, start) == Some(u.states[y])
    {
      ReplayOne(t.log, Remark(x, kind, was, is_), y, start);
    }
    hide Replay;
  }

  // ----- what a batch does -----

  /** The listed records are in a state and all others as before. */
  predicate MovedTo<S(==)>(before: map<nat, S>, after: map<nat, S>, ids: seq<nat>, to: S) {
    before.Keys == after.Keys && forall x :: x in before ==> after[x] == if x in ids then to else before[x]
  }

  /** A transition gives out no identifier. */
  lemma {:induction false} TurnsNext<S>(rule: Rule<S>, t: Table<S>, ids: seq<nat>, kind: Kind, to: S)
    requires Turns(rule, t, ids, kind, to).Some?
    ensures Turns(rule, t, ids, kind, to).value.next == t.next
    decreases |ids|
  {
    if ids != [] {
      TurnsNext(rule, t, ids[..|ids| - 1], kind, to);
    }
  }

  /** A batch only adds to the log. */
  lemma {:induction false} TurnsGrow<S>(rule: Rule<S>, t: Table<S>, ids: seq<nat>, kind: Kind, to: S)
    requires Turns(rule, t, ids, kind, to).Some?
    ensures t.log <= Turns(rule, t, ids, kind, to).value.log
    decreases |ids|
  {
    if ids != [] {
      TurnsGrow(rule, t, ids[..|ids| - 1], kind, to);
    }
  }

  /** One change a listed record, in order, from the state it had; a record listed again is there already. */
  predicate LogsEach<S(==)>(t: Table<S>, u: Table<S>, ids: seq<nat>, kind: Kind, to: S) {
    && |u.log| == |t.log| + |ids| && t.log <= u.log
    && forall i :: 0 <= i < |ids| ==>
         && ids[i] in t.states
         && u.log[|t.log| + i] == Change(ids[i], kind, if ids[i] in ids[..i] then to else t.states[ids[i]], to)
  }

  lemma {:induction false} TurnsLog<S>(rule: Rule<S>, t: Table<S>, ids: seq<nat>, kind: Kind, to: S)
    requires Turns(rule, t, ids, kind, to).Some?
    ensures LogsEach(t, Turns(rule, t, ids, kind, to).value, ids, kind, to)
    decreases |ids|
  {
    if ids != [] {
      var fewer, last := ids[..|ids| - 1], ids[|ids| - 1];
      TurnsLog(rule, t, fewer, kind, to);
      TurnsStates(rule, t, fewer, kind, to);
      var u := Turns(rule, t, fewer, kind, to).value;
      assert Turns(rule, t, ids, kind, to) == Turn(rule, u, last, kind, to);
      hide Turns;
      LogsOneMore(rule, t, u, fewer, last, kind, to);
      assert ids == fewer + [last];
      hide LogsEach;
    }
  }

  lemma LogsOneMore<S>(rule: Rule<S>, t: Table<S>, u: Table<S>, ids: seq<nat>, x: nat, kind: Kind, to: S)
    requires LogsEach(t, u, ids, kind, to) && MovedTo(t.states, u.states, ids, to) && Turn(rule, u, x, kind, to).Some?
    ensures LogsEach(t, Turn(rule, u, x, kind, to).value, ids + [x], kind, to)
  {
    var v, more := Turn(rule, u, x, kind, to).value, ids + [x];
    forall i | 0 <= i < |more|
      ensures more[i] in t.states
      ensures v.log[|t.log| + i] == Change(more[i], kind, if more[i] in more[..i] then to else t.states[more[i]], to)
    {
      if i < |ids| {
        assert more[..i] == ids[..i] && v.log[|t.log| + i] == u.log[|t.log| + i];
      } else {
        assert more[..i] == ids;
      }
    }
  }

  lemma TurnState<S>(rule: Rule<S>, t: Table<S>, x: nat, kind: Kind, to: S)
    requires Turn(rule, t, x, kind, to).Some?
    ensures var u := Turn(rule, t, x, kind, to).value;
      u.states.Keys == t.states.Keys && forall y :: y in t.states ==> u.states[y] == if y == x then to else t.states[y]
  {
  }

  lemma {:induction false} TurnsStates<S>(rule: Rule<S>, t: Table<S>, ids: seq<nat>, kind: Kind, to: S)
    requires Turns(rule, t, ids, kind, to).Some?
    ensures MovedTo(t.states, Turns(rule, t, ids, kind, to).value.states, ids, to)
    decreases |ids|
  {
    if ids != [] {
      var rest, last := ids[..|ids| - 1], ids[|ids| - 1];
      TurnsStates(rule, t, rest, kind, to);
      TurnState(rule, Turns(rule, t, rest, kind, to).value, last, kind, to);
      assert ids == rest + [last];
      hide Turn;
    }
  }

  /**
   * When the rule forbids staying in the target state, a batch succeeds exactly when its records are
   * distinct and each may make the move.
   */
  lemma {:induction false} TurnsSucceedExactly<S>(rule: Rule<S>, t: Table<S>, ids: seq<nat>, kind: Kind, to: S)
    requires !rule(to, to)
    ensures Turns(rule, t, ids, kind, to).Some?
            <==> NoDuplicates(ids) && forall x :: x in ids ==> x in t.states && rule(t.states[x], to)
    decreases |ids|
  {
    if ids != [] {
      var rest, last := ids[..|ids| - 1], ids[|ids| - 1];
      TurnsSucceedExactly(rule, t, rest, kind, to);
      assert ids == rest + [last];
      DistinctLast(ids);
      hide NoDuplicates;
      if Turns(rule, t, rest, kind, to).Some? {
        TurnsStates(rule, t, rest, kind, to);
        assert Turns(rule, t, ids, kind, to) == Turn(rule, Turns(rule, t, rest, kind, to).value, last, kind, to);
        hide Turns;
      }
    }
  }

  /** Without any rule a batch of known records always succeeds. */
  lemma {:induction false} FreeTurnsSucceed<S>(rule: Rule<S>, t: Table<S>, ids: seq<nat>, kind: Kind, to: S)
    requires forall x :: x in t.states ==> rule(t.states[x], to)
    requires rule(to, to)
    ensures Turns(rule, t, ids, kind, to).Some? <==> forall x :: x in ids ==> x in t.states
    decreases |ids|
  {
    if ids != [] {
      var rest, last := ids[..|ids| - 1], ids[|ids| - 1];
      FreeTurnsSucceed(rule, t, rest, kind, to);
      assert ids == rest + [last];
      if Turns(rule, t, rest, kind, to).Some? {
        TurnsStates(rule, t, rest, kind, to);
      }
    }
  }

  // ----- the table in place -----

  lemma TurnsStep<S>(rule: Rule<S>, t: Table<S>, ids: seq<nat>, i: nat, kind: Kind, to: S)
    requires i < |ids| && Turns(rule, t, ids[..i], kind, to).Some?
    ensures var turn := Turn(rule, Turns(rule, t, ids[..i], kind, to).value, ids[i], kind, to);
      && Turns(rule, t, ids[..i + 1], kind, to) == turn
      && (turn.None? ==> Turns(rule, t, ids, kind, to).None?)
  {
    hide Turn;
    assert ids[..i + 1][..i] == ids[..i];
    if Turns(rule, t, ids[..i + 1], kind, to).None? {
      TurnsFail(rule, t, ids, i + 1, kind, to);
    }
  }

  lemma {:induction false} TurnsFail<S>(rule: Rule<S>, t: Table<S>, ids: seq<nat>, i: nat, kind: Kind, to: S)
    requires i <= |ids| && Turns(rule, t, ids[..i], kind, to).None?
    ensures Turns(rule, t, ids, kind, to).None?
    decreases |ids|
  {
    hide Turn;
    if i < |ids| {
      assert ids[..|ids| - 1][..i] == ids[..i];
      TurnsFail(rule, t, ids[..|ids| - 1], i, kind, to);
    } else {
      assert ids[..i] == ids;
    }
  }

  /** The stored states and the event log; the log is only appended to, and an error restores both. */
  class Ledger<S(==)> {
    var states: map<nat, S>
    var log: seq<Event<S>>
    var next: nat

    function Contents(): Table<S> reads this { Table(states, log, next) }

    constructor ()
      ensures Contents() == Table(map[], [], 0)
    {
      states, log, next := map[], [], 0;
    }

    method Transition(rule: Rule<S>, ids: seq<nat>, kind: Kind, to: S) returns (ok: bool)
      modifies this
      ensures ok == old(Turns(rule, Contents(), ids, kind, to).Some?)
      ensures Contents() == if ok then old(Turns(rule, Contents(), ids, kind, to).value) else old(Contents())
    {
      var before := Contents();
      var i := 0;
      assert Turns(rule, before, ids[..0], kind, to) == Some(before);
      while i < |ids|
        invariant 0 <= i <= |ids| && next == before.next
        invariant Turns(rule, before, ids[..i], kind, to) == Some(Contents())
      {
        TurnsStep(rule, before, ids, i, kind, to);
        var x := ids[i];
        if x !in states || !rule(states[x], to) {
          states, log := before.states, before.log;
          return false;
        }
        log := log + [Change(x, kind, states[x], to)];
        states := states[x := to];
        i := i + 1;
      }
      assert ids[..i] == ids;
      ok := true;
    }

    method Append(start: S) returns (x: nat)
      modifies this
      ensures x == old(next) && Contents() == Add(old(Contents()), start)
    {
      x := next;
      states, next := states[next := start], next + 1;
    }

    method Comment(x: nat, kind: Kind, was: string, is_: string)
      modifies this
      ensures Contents() == Note(old(Contents()), x, kind, was, is_)
    {
      log := log + [Remark(x, kind, was, is_)];
    }
  }
}
