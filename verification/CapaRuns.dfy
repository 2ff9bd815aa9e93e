/** What every run of CAPA actions keeps: the fixed analysis structure, locked fields, and the event chain. */
module CapaRuns {
  import opened Common
  import opened EventLog
  import opened StateTable
  import opened Capas

  // ----- the slots -----

  predicate WhysOk(whys: seq<Why>) {
    WhyIntegrity(whys) && forall w :: w in whys ==> w.question == Prompt(w.sequence)
  }

  predicate RowsOk(rows: seq<Row>) { rows == [] || RowIntegrity(rows) }

  predicate FullWhys(whys: seq<Why>) { |whys| == 5 && ToSet(Sequences(whys)) == ToSet(SLOTS) }

  predicate FullRows(rows: seq<Row>) { |rows| == 4 && ToSet(RowDimensions(rows)) == ToSet(DIMENSIONS) }

  /** The whole structure of the CAPA's own method. */
  predicate Full(c: Capa) {
    (c.method_.FiveWhy? ==> FullWhys(c.whys)) && (c.method_.IsIsNot? ==> FullRows(c.rows))
  }

  lemma {:induction false} MissingWhysHolds(whys: seq<Why>, numbers: seq<int>)
    ensures forall n :: n in MissingWhys(whys, numbers) <==> n in numbers && n !in Sequences(whys)
    ensures NoDuplicates(numbers) ==> NoDuplicates(MissingWhys(whys, numbers))
  {
    hide Sequences;
    if numbers != [] {
      var rest, last := numbers[..|numbers| - 1], numbers[|numbers| - 1];
      MissingWhysHolds(whys, rest);
      assert numbers == rest + [last];
      DistinctLast(numbers);
      hide NoDuplicates;
      if NoDuplicates(numbers) {
        assert last !in MissingWhys(whys, rest);
        DistinctSnoc(MissingWhys(whys, rest), last);
      }
    }
  }

  lemma SequencesAppend(whys: seq<Why>, numbers: seq<int>)
    ensures Sequences(whys + NewWhys(numbers)) == Sequences(whys) + numbers
  {
  }

  lemma DistinctConcatenation<T>(a: seq<T>, b: seq<T>)
    requires NoDuplicates(a) && NoDuplicates(b) && forall x :: x in b ==> x !in a
    ensures NoDuplicates(a + b)
  {
    var all := a + b;
    forall i, j | 0 <= i < j < |all|
      ensures all[i] != all[j]
    {
      if i < |a| <= j {
        assert b[j - |a|] in b && a[i] in a;
      }
    }
  }

  lemma InSlots(n: int)
    ensures n in SLOTS <==> 1 <= n <= 5
  {
    assert SLOTS[0] == 1 && SLOTS[1] == 2 && SLOTS[2] == 3 && SLOTS[3] == 4 && SLOTS[4] == 5;
  }

  lemma FiveSlots()
    ensures NoDuplicates(SLOTS) && |ToSet(SLOTS)| == 5
  {
    assert NoDuplicates(SLOTS);
    SetSize(SLOTS);
  }

  lemma SameSet<T>(a: seq<T>, b: seq<T>)
    requires forall x :: x in a <==> x in b
    ensures ToSet(a) == ToSet(b)
  {
  }

  lemma NumbersAreSlots(whys: seq<Why>, n: int)
    requires WhysOk(whys) && n in Sequences(whys)
    ensures n in SLOTS
  {
    var i :| 0 <= i < |whys| && Sequences(whys)[i] == n;
    assert whys[i] in whys;
    InSlots(n);
  }

  /** What a list of slots and the missing numbers make together. */
  lemma NumbersCompleted(whys: seq<Why>)
    requires WhysOk(whys)
    ensures var numbers := Sequences(whys) + MissingWhys(whys, SLOTS);
      NoDuplicates(numbers) && ToSet(numbers) == ToSet(SLOTS) && |numbers| == 5
  {
    var missing := MissingWhys(whys, SLOTS);
    var numbers := Sequences(whys) + missing;
    FiveSlots();
    MissingWhysHolds(whys, SLOTS);
    assert NoDuplicates(Sequences(whys));
    hide WhysOk, NoDuplicates, ToSet, MissingWhys, Sequences;
    DistinctConcatenation(Sequences(whys), missing);
    forall n
      ensures n in numbers <==> n in SLOTS
    {
      if n in Sequences(whys) {
        NumbersAreSlots(whys, n);
      }
    }
    SameSet(numbers, SLOTS);
    SetSize(numbers);
  }

  lemma NewWhysOk(whys: seq<Why>, missing: seq<int>, w: Why)
    requires WhysOk(whys) && (forall n :: n in missing ==> n in SLOTS) && w in whys + NewWhys(missing)
    ensures ValidSlot(w.sequence) && w.question == Prompt(w.sequence)
  {
    hide Prompt, Sequences, NoDuplicates;
    if w !in whys {
      var i :| 0 <= i < |missing| && w == NewWhys(missing)[i];
      InSlots(missing[i]);
    }
  }

  /** Adding what is missing gives five distinct slots and always passes the integrity check. */
  lemma WhysCompleted(whys: seq<Why>)
    requires WhysOk(whys)
    ensures var all := whys + NewWhys(MissingWhys(whys, SLOTS)); WhysOk(all) && FullWhys(all)
  {
    var missing := MissingWhys(whys, SLOTS);
    var all := whys + NewWhys(missing);
    NumbersCompleted(whys);
    MissingWhysHolds(whys, SLOTS);
    SequencesAppend(whys, missing);
    forall w | w in all
      ensures ValidSlot(w.sequence) && w.question == Prompt(w.sequence)
    {
      NewWhysOk(whys, missing, w);
    }
    hide NoDuplicates, MissingWhys, Prompt, Sequences, ToSet, NewWhys, ValidSlot;
  }

  lemma FourNumbers()
    ensures |ToSet(ROW_NUMBERS)| == 4 && |ToSet(DIMENSIONS)| == 4
  {
    assert NoDuplicates(ROW_NUMBERS) && NoDuplicates(DIMENSIONS);
    SetSize(ROW_NUMBERS);
    SetSize(DIMENSIONS);
  }

  lemma EveryDimension(d: Dimension)
    ensures d in DIMENSIONS && SequenceOf(d) in ROW_NUMBERS
  {
    assert DIMENSIONS[0] == What && DIMENSIONS[1] == Where && DIMENSIONS[2] == When && DIMENSIONS[3] == Extent;
    assert ROW_NUMBERS[0] == 1 && ROW_NUMBERS[1] == 2 && ROW_NUMBERS[2] == 3 && ROW_NUMBERS[3] == 4;
  }

  lemma DimensionPresent(rows: seq<Row>, d: Dimension)
    requires RowIntegrity(rows)
    ensures d in RowDimensions(rows)
  {
    EveryDimension(d);
    assert SequenceOf(d) in ToSet(ROW_NUMBERS);
    assert SequenceOf(d) in RowSequences(rows);
    var i :| 0 <= i < |rows| && RowSequences(rows)[i] == SequenceOf(d);
    assert rows[i] in rows && RowDimensions(rows)[i] == d;
    hide NoDuplicates;
  }

  /** A CAPA with rows has exactly four, one a dimension: four sequence numbers need four rows. */
  lemma FourRows(rows: seq<Row>)
    requires RowIntegrity(rows)
    ensures FullRows(rows)
  {
    FourNumbers();
    SetSize(RowSequences(rows));
    forall d: Dimension
      ensures d in RowDimensions(rows) <==> d in DIMENSIONS
    {
      DimensionPresent(rows, d);
      EveryDimension(d);
    }
    SameSet(RowDimensions(rows), DIMENSIONS);
    hide NoDuplicates, ToSet, RowDimensions, RowSequences, SequenceOf;
  }

  lemma {:induction false} MissingRowsHolds(rows: seq<Row>, dimensions: seq<Dimension>)
    ensures (forall d :: d in dimensions ==> d in RowDimensions(rows)) ==> MissingRows(rows, dimensions) == []
    ensures rows == [] ==> MissingRows(rows, dimensions) == dimensions
  {
    if dimensions != [] {
      assert rows == [] ==> RowDimensions(rows) == [];
      hide RowDimensions;
      var rest, last := dimensions[..|dimensions| - 1], dimensions[|dimensions| - 1];
      MissingRowsHolds(rows, rest);
      assert dimensions == rest + [last];
    }
  }

  lemma FreshRows()
    ensures RowIntegrity(NewRows(DIMENSIONS))
  {
    var rows := NewRows(DIMENSIONS);
    assert RowSequences(rows) == ROW_NUMBERS;
    assert RowDimensions(rows) == DIMENSIONS && NoDuplicates(DIMENSIONS);
    hide NoDuplicates, RowSequences, RowDimensions, ToSet;
  }

  /** Rows are complete as they are, or all four are new; either way the integrity check passes. */
  lemma RowsCompleted(rows: seq<Row>)
    requires RowsOk(rows)
    ensures rows != [] ==> MissingRows(rows, DIMENSIONS) == []
    ensures var all := rows + NewRows(MissingRows(rows, DIMENSIONS)); RowIntegrity(all) && FullRows(all)
  {
    MissingRowsHolds(rows, DIMENSIONS);
    FreshRows();
    hide RowIntegrity, FullRows, MissingRows;
    if rows == [] {
      assert rows + NewRows(DIMENSIONS) == NewRows(DIMENSIONS);
      FourRows(NewRows(DIMENSIONS));
    } else {
      FourRows(rows);
      forall d | d in DIMENSIONS
        ensures d in RowDimensions(rows)
      {
        DimensionPresent(rows, d);
      }
      assert rows + NewRows([]) == rows;
    }
  }

  predicate SlotsOk(c: Capa) { WhysOk(c.whys) && RowsOk(c.rows) }

  lemma InitializeWhys(c: Capa)
    requires WhysOk(c.whys) && c.method_.FiveWhy?
    ensures Initialize(c) == Some(c.(whys := c.whys + NewWhys(MissingWhys(c.whys, SLOTS))))
  {
    WhysCompleted(c.whys);
    assert c.whys + NewWhys([]) == c.whys;
    hide MissingWhys, FullWhys;
  }

  lemma InitializeRows(c: Capa)
    requires RowsOk(c.rows) && c.method_.IsIsNot?
    ensures Initialize(c) == Some(c.(rows := c.rows + NewRows(MissingRows(c.rows, DIMENSIONS))))
  {
    RowsCompleted(c.rows);
    assert c.rows + NewRows([]) == c.rows;
    hide MissingRows, FullRows, RowIntegrity;
  }

  /** Initialization never fails its own checks and completes the structure; it only adds slots. */
  lemma InitializeCompletes(c: Capa)
    requires SlotsOk(c)
    ensures Initialize(c).Some?
    ensures var d := Initialize(c).value;
      && SlotsOk(d) && Full(d) && d == c.(whys := d.whys, rows := d.rows)
      && c.whys <= d.whys && c.rows <= d.rows
  {
    hide MissingWhys, MissingRows, NewWhys, NewRows, FullWhys, FullRows, WhysOk, RowIntegrity;
    if c.method_.FiveWhy? {
      InitializeWhys(c);
      WhysCompleted(c.whys);
      hide Initialize;
    } else if c.method_.IsIsNot? {
      InitializeRows(c);
      RowsCompleted(c.rows);
      hide Initialize;
    }
  }

  lemma MissingNone(whys: seq<Why>)
    requires FullWhys(whys)
    ensures MissingWhys(whys, SLOTS) == []
  {
    MissingWhysHolds(whys, SLOTS);
    forall n | n in SLOTS
      ensures n in Sequences(whys)
    {
      assert n in ToSet(SLOTS);
      assert n in ToSet(Sequences(whys));
    }
    var missing := MissingWhys(whys, SLOTS);
    NoElement(missing);
  }

  lemma NoElement(s: seq<int>)
    ensures s != [] ==> exists n :: n in s
  {
    if s != [] {
      var n := s[0];
      assert n in s;
    }
  }

  /** A complete structure is left alone. */
  lemma InitializeAgain(c: Capa)
    requires SlotsOk(c) && Full(c)
    ensures Initialize(c) == Some(c)
  {
    if c.method_.FiveWhy? {
      MissingNone(c.whys);
    } else if c.method_.IsIsNot? {
      RowsCompleted(c.rows);
      assert c.rows != [];
    }
    hide MissingWhys, MissingRows, WhysOk, RowIntegrity;
  }

  // ----- the 5 Why check -----

  lemma {:induction false} HighestHolds(whys: seq<Why>)
    requires forall w :: w in whys ==> 1 <= w.sequence
    ensures 0 <= Highest(whys)
    ensures forall i :: 0 <= i < |whys| && whys[i].answered ==> whys[i].sequence <= Highest(whys)
    ensures Highest(whys) != 0 ==> Answered(whys, Highest(whys))
  {
    if whys != [] {
      var n := |whys| - 1;
      HighestHolds(whys[..n]);
      if Highest(whys) == Highest(whys[..n]) {
        if Highest(whys) != 0 {
          var i :| 0 <= i < n && whys[..n][i].sequence == Highest(whys) && whys[..n][i].answered;
          assert whys[i].sequence == Highest(whys) && whys[i].answered;
        }
      } else {
        assert whys[n].sequence == Highest(whys) && whys[n].answered;
      }
    }
  }

  /** The answered slots are exactly 1 to k. */
  predicate AnsweredUpTo(whys: seq<Why>, k: int) {
    forall s :: 1 <= s <= 5 ==> (Answered(whys, s) <==> s <= k)
  }

  /** In a full set of slots every number is one of the five. */
  lemma FullNumbers(whys: seq<Why>)
    requires FullWhys(whys)
    ensures forall i :: 0 <= i < |whys| ==> 1 <= whys[i].sequence <= 5
  {
    forall i | 0 <= i < |whys|
      ensures 1 <= whys[i].sequence <= 5
    {
      assert Sequences(whys)[i] in ToSet(SLOTS);
      InSlots(whys[i].sequence);
    }
  }

  /** The 5 Why check accepts exactly a full set of slots whose answered ones are a non-empty prefix 1..k. */
  lemma FiveWhyExactly(whys: seq<Why>)
    ensures FiveWhyComplete(whys) <==> FullWhys(whys) && exists k :: 1 <= k <= 5 && AnsweredUpTo(whys, k)
  {
    if FullWhys(whys) {
      FullNumbers(whys);
      hide FullWhys, Sequences, NoDuplicates;
      HighestHolds(whys);
      var h := Highest(whys);
      if FiveWhyComplete(whys) {
        assert AnsweredUpTo(whys, h);
      }
      if k :| 1 <= k <= 5 && AnsweredUpTo(whys, k) {
        assert Answered(whys, 1) && Answered(whys, k);
        assert h == k;
      }
    }
  }

  // ----- runs -----

  /** One CAPA: sound slots, a valid source, none of its slots before analysis, all of them during it. */
  predicate CapaOk(c: Capa, state: CapaState) {
    && SlotsOk(c) && ValidSource(c.source)
    && (state.Analysis? ==> Full(c))
    && (state.Draft? ==> c.whys == [] && c.rows == [])
  }

  /** A CAPA is closed only from effective; one listed twice in a batch is closed again. */
  predicate ClosedProperly(e: Event<CapaState>) {
    e.Change? && e.next.Closed? ==> e.previous.Effective? || e.previous.Closed?
  }

  ghost predicate CapasOk(capas: map<nat, Capa>, states: map<nat, CapaState>) {
    capas.Keys == states.Keys && forall x :: x in capas ==> CapaOk(capas[x], states[x])
  }

  ghost predicate TableOk(t: Table<CapaState>) {
    Sound(t, Draft) && forall e :: e in t.log ==> ClosedProperly(e)
  }

  ghost predicate FileOk(s: File) { CapasOk(s.capas, s.table.states) && TableOk(s.table) }

  lemma {:induction false} TurnsEvents(t: Table<CapaState>, ids: seq<nat>, kind: Kind, to: CapaState,
                                       e: Event<CapaState>)
    requires Turns(Free, t, ids, kind, to).Some? && e in Turns(Free, t, ids, kind, to).value.log
    ensures e in t.log || (e.Change? && e.record in ids && e.record in t.states && e.next == to
                           && (e.previous == to || e.previous == t.states[e.record]))
    decreases |ids|
  {
    if ids != [] {
      var rest, last := ids[..|ids| - 1], ids[|ids| - 1];
      assert ids == rest + [last];
      TurnsStates(Free, t, rest, kind, to);
      if e in Turns(Free, t, rest, kind, to).value.log {
        TurnsEvents(t, rest, kind, to, e);
      }
    }
  }

  lemma TableMoveOk(t: Table<CapaState>, ids: seq<nat>, kind: Kind, to: CapaState)
    requires TableOk(t) && Turns(Free, t, ids, kind, to).Some?
    requires to.Closed? ==> forall x :: x in ids && x in t.states ==> t.states[x].Effective?
    ensures TableOk(Turns(Free, t, ids, kind, to).value)
  {
    TurnsSound(Free, t, ids, kind, to, Draft);
    hide Sound, Turns;
    forall e | e in Turns(Free, t, ids, kind, to).value.log
      ensures ClosedProperly(e)
    {
      TurnsEvents(t, ids, kind, to, e);
    }
  }

  /** Moving anywhere but into draft or analysis. */
  lemma MoveOk(s: File, actor: Actor, ids: seq<nat>, kind: Kind, to: CapaState)
    requires FileOk(s) && Move(s, actor, ids, kind, to).Some? && !to.Draft? && !to.Analysis?
    requires to.Closed? ==> forall x :: x in ids && x in s.table.states ==> s.table.states[x].Effective?
    ensures FileOk(Move(s, actor, ids, kind, to).value)
    ensures Move(s, actor, ids, kind, to).value.capas == s.capas
  {
    hide SlotsOk, Full, ValidSource, TableOk, Turns;
    TableMoveOk(s.table, ids, kind, to);
    TurnsStates(Free, s.table, ids, kind, to);
  }

  function Initialized(c: Capa): Capa {
    if Initialize(c).Some? then Initialize(c).value else c
  }

  /** What the first loop of action_start_analysis leaves. */
  lemma {:induction false} InitializeEachHolds(capas: map<nat, Capa>, ids: seq<nat>)
    requires forall x :: x in capas ==> SlotsOk(capas[x]) && ValidSource(capas[x].source)
    ensures InitializeEach(capas, ids).Some? <==> forall x :: x in ids ==> x in capas && capas[x].prerequisites
    ensures InitializeEach(capas, ids).Some? ==>
      var after := InitializeEach(capas, ids).value;
      && after.Keys == capas.Keys
      && forall x :: x in capas ==> after[x] == if x in ids then Initialized(capas[x]) else capas[x]
    decreases |ids|
  {
    hide SlotsOk, ValidSource, Initialize, Full;
    if ids != [] {
      var rest, x := ids[..|ids| - 1], ids[|ids| - 1];
      assert ids == rest + [x];
      InitializeEachHolds(capas, rest);
      if InitializeEach(capas, rest).Some? && x in capas {
        InitializeCompletes(capas[x]);
        InitializeAgain(Initialize(capas[x]).value);
      }
    }
  }

  lemma CapasSlots(s: File)
    requires FileOk(s)
    ensures forall x :: x in s.capas ==> SlotsOk(s.capas[x]) && ValidSource(s.capas[x].source)
  {
    hide SlotsOk, ValidSource, TableOk, Full;
  }

  /** Starting analysis fails only without permission, a record, or its prerequisites - never on its own checks. */
  lemma StartExactly(s: File, actor: Actor, ids: seq<nat>)
    requires FileOk(s)
    ensures Start(s, actor, ids).Some?
            <==> actor.manager && forall x :: x in ids ==> x in s.capas && s.capas[x].prerequisites
  {
    CapasSlots(s);
    InitializeEachHolds(s.capas, ids);
    FreeTurnsSucceed(Free, s.table, ids, Workflow, Analysis);
    hide InitializeEach, Turns, SlotsOk, Initialize, ValidSource, CapaOk, TableOk;
  }

  /** It only adds slots. */
  predicate OnlyAddsSlots(c: Capa, d: Capa) {
    d == c.(whys := d.whys, rows := d.rows) && c.whys <= d.whys && c.rows <= d.rows
  }

  lemma StartOk(s: File, actor: Actor, ids: seq<nat>)
    requires FileOk(s) && Start(s, actor, ids).Some?
    ensures FileOk(Start(s, actor, ids).value)
    ensures Start(s, actor, ids).value.capas.Keys == s.capas.Keys
    ensures forall x :: x in s.capas ==> OnlyAddsSlots(s.capas[x], Start(s, actor, ids).value.capas[x])
  {
    CapasSlots(s);
    InitializeEachHolds(s.capas, ids);
    TableMoveOk(s.table, ids, Workflow, Analysis);
    TurnsStates(Free, s.table, ids, Workflow, Analysis);
    hide InitializeEach, Turns, SlotsOk, Initialize, ValidSource, TableOk, Full;
    var t := Start(s, actor, ids).value;
    forall x | x in t.capas
      ensures CapaOk(t.capas[x], t.table.states[x]) && OnlyAddsSlots(s.capas[x], t.capas[x])
    {
      InitializeCompletes(s.capas[x]);
    }
  }

  // ----- edits -----

  lemma {:induction false} SlotsKept(c: Capa, d: Capa)
    requires SlotsOk(c) && |d.whys| == |c.whys| && |d.rows| == |c.rows|
    requires forall i :: 0 <= i < |c.whys| ==>
      d.whys[i].sequence == c.whys[i].sequence && d.whys[i].question == c.whys[i].question
    requires forall i :: 0 <= i < |c.rows| ==>
      d.rows[i].sequence == c.rows[i].sequence && d.rows[i].dimension == c.rows[i].dimension
    ensures SlotsOk(d) && Sequences(d.whys) == Sequences(c.whys) && RowDimensions(d.rows) == RowDimensions(c.rows)
  {
    assert Sequences(d.whys) == Sequences(c.whys);
    assert RowDimensions(d.rows) == RowDimensions(c.rows) && RowSequences(d.rows) == RowSequences(c.rows);
    forall w | w in d.whys
      ensures ValidSlot(w.sequence) && w.question == Prompt(w.sequence)
    {
      var i :| 0 <= i < |d.whys| && d.whys[i] == w;
      assert c.whys[i] in c.whys;
    }
    forall r | r in d.rows && c.rows != []
      ensures r.sequence == SequenceOf(r.dimension)
    {
      var i :| 0 <= i < |d.rows| && d.rows[i] == r;
      assert c.rows[i] in c.rows;
    }
    hide Sequences, RowSequences, RowDimensions, NoDuplicates, ToSet, Prompt, ValidSlot, SequenceOf;
  }

  lemma PutOk(s: File, x: nat, c: Capa)
    requires FileOk(s) && Exists(s, x) && CapaOk(c, s.table.states[x])
    ensures FileOk(Put(s, x, c))
  {
    hide CapaOk, TableOk;
    assert s.capas[x := c].Keys == s.capas.Keys;
  }

  lemma AnswerOk(s: File, actor: Actor, x: Action)
    requires x.AnswerWhy? || x.FillRow?
    requires FileOk(s) && ApplyEdit(s, actor, x).Some?
    ensures FileOk(ApplyEdit(s, actor, x).value)
  {
    var c, d := s.capas[x.x], ApplyEdit(s, actor, x).value.capas[x.x];
    assert CapaOk(c, s.table.states[x.x]);
    SlotsKept(c, d);
    hide SlotsOk, TableOk, Sequences, RowDimensions, ToSet, ValidSource;
    PutOk(s, x.x, d);
  }

  lemma CreateOk(s: File, actor: Actor, c: Capa)
    requires FileOk(s) && ApplyEdit(s, actor, Create(c)).Some?
    ensures FileOk(ApplyEdit(s, actor, Create(c)).value)
  {
    AddSound(s.table, Draft);
    hide Sound, ValidSource, ClosedProperly;
    var t := ApplyEdit(s, actor, Create(c)).value;
    var new_ := t.capas[s.table.next];
    assert CapaOk(new_, Draft) by {
      NoSlots(new_);
    }
    hide CapaOk;
  }

  lemma NoSlots(c: Capa)
    requires c.whys == [] && c.rows == []
    ensures SlotsOk(c)
  {
  }

  lemma DeleteOk(s: File, actor: Actor, ids: seq<nat>)
    requires FileOk(s) && ApplyEdit(s, actor, Delete(ids)).Some?
    ensures FileOk(ApplyEdit(s, actor, Delete(ids)).value)
  {
    RemoveSound(s.table, ids, Draft);
    hide Sound, CapaOk, ClosedProperly;
  }

  lemma FieldsOk(s: File, actor: Actor, x: Action)
    requires x.EditSource? || x.EditMethod? || x.EditCause? || x.EditRest?
    requires FileOk(s) && ApplyEdit(s, actor, x).Some?
    ensures FileOk(ApplyEdit(s, actor, x).value)
  {
    assert CapaOk(s.capas[x.x], s.table.states[x.x]);
    hide TableOk, WhysOk, RowsOk, ValidSource, FullWhys, FullRows, CapasOk;
    PutOk(s, x.x, ApplyEdit(s, actor, x).value.capas[x.x]);
  }

  lemma ApplyOk(s: File, actor: Actor, x: Action)
    requires FileOk(s) && Apply(s, actor, x).Some?
    ensures FileOk(Apply(s, actor, x).value)
  {
    hide FileOk, Start, Move, RootCauseComplete, ActionsDone, CauseLocked, SlotsOpen, ValidSource, Put, Add, Remove;
    match x
    case StartAnalysis(ids) => StartOk(s, actor, ids);
    case PlanActions(ids) => MoveOk(s, actor, ids, Workflow, ActionPlanned);
    case StartImplementation(ids) => MoveOk(s, actor, ids, Workflow, Implementation);
    case CompleteImplementation(ids) => MoveOk(s, actor, ids, Review, EffectivenessReview);
    case StartEffectivenessReview(ids) => MoveOk(s, actor, ids, Review, EffectivenessReview);
    case MarkEffective(ids) => MoveOk(s, actor, ids, Effectiveness, Effective);
    case MarkIneffective(ids) => MoveOk(s, actor, ids, Effectiveness, Ineffective);
    case ReopenActions(ids) => MoveOk(s, actor, ids, Workflow, ActionPlanned);
    case Close(ids) => MoveOk(s, actor, ids, Closure, Closed);
    case Cancel(ids) => MoveOk(s, actor, ids, Closure, Cancelled);
    case Create(c) => CreateOk(s, actor, c);
    case Delete(ids) => DeleteOk(s, actor, ids);
    case AnswerWhy(_, _, _) => AnswerOk(s, actor, x);
    case FillRow(_, _, _, _, _) => AnswerOk(s, actor, x);
    case _ =>
      if x.EditSource? || x.EditMethod? || x.EditCause? || x.EditRest? {
        FieldsOk(s, actor, x);
      }
  }

  lemma EmptyOk()
    ensures FileOk(Empty())
  {
  }

  /** In every reachable state every CAPA is sound and its events replay to its state. */
  lemma {:induction false} ReachableFileOk(steps: seq<(Actor, Action)>)
    ensures FileOk(Run(steps))
    decreases |steps|
  {
    hide FileOk, Apply;
    if steps == [] {
      EmptyOk();
    } else {
      var s, step := Run(steps[..|steps| - 1]), steps[|steps| - 1];
      ReachableFileOk(steps[..|steps| - 1]);
      if Apply(s, step.0, step.1).Some? {
        ApplyOk(s, step.0, step.1);
      }
    }
  }

  /** Zero or four rows, unique slots in 1..5, and in analysis the full structure of the CAPA's method. */
  lemma ReachableStructure(steps: seq<(Actor, Action)>, x: nat)
    requires x in Run(steps).capas
    ensures x in Run(steps).table.states
    ensures var c := Run(steps).capas[x];
      && (c.rows == [] || FullRows(c.rows))
      && NoDuplicates(Sequences(c.whys))
      && (forall w :: w in c.whys ==> ValidSlot(w.sequence) && w.question == Prompt(w.sequence))
      && (Run(steps).table.states[x].Analysis? ==> Full(c))
    ensures Replay(Run(steps).table.log, x, Draft) == Some(Run(steps).table.states[x])
  {
    ReachableFileOk(steps);
    hide Run, NoDuplicates, Sequences, Prompt, ValidSlot, FullWhys, Replay;
    var s := Run(steps);
    assert CapaOk(s.capas[x], s.table.states[x]);
    if s.capas[x].rows != [] {
      FourRows(s.capas[x].rows);
    }
  }

  /** After draft, no action changes a CAPA's method or where it came from, or deletes it. */
  lemma LockedAfterDraft(s: File, actor: Actor, x: Action, k: nat)
    requires FileOk(s) && Apply(s, actor, x).Some?
    requires k in s.capas && k in s.table.states && !s.table.states[k].Draft?
    ensures var t := Apply(s, actor, x).value;
      k in t.capas && t.capas[k].method_ == s.capas[k].method_ && t.capas[k].source == s.capas[k].source
  {
    hide Turns, RootCauseComplete, ActionsDone, ValidSource, Start, TableOk, CapaOk;
    if x.StartAnalysis? {
      StartOk(s, actor, x.ids);
    } else if x.Create? {
      assert k < s.table.next by {
        KnownNumbers(s, k);
      }
    }
  }

  lemma KnownNumbers(s: File, k: nat)
    requires FileOk(s) && k in s.capas
    ensures k < s.table.next
  {
    hide CapaOk, Replay, ClosedProperly;
  }

  /** No action removes or changes an event. */
  lemma LogGrows(s: File, actor: Actor, x: Action)
    requires Apply(s, actor, x).Some?
    ensures s.table.log <= Apply(s, actor, x).value.table.log
  {
    hide InitializeEach, Turns, RootCauseComplete, ActionsDone, ValidSource, CauseLocked, SlotsOpen;
    match x
    case StartAnalysis(ids) => TurnsGrow(Free, s.table, ids, Workflow, Analysis);
    case PlanActions(ids) => TurnsGrow(Free, s.table, ids, Workflow, ActionPlanned);
    case StartImplementation(ids) => TurnsGrow(Free, s.table, ids, Workflow, Implementation);
    case CompleteImplementation(ids) => TurnsGrow(Free, s.table, ids, Review, EffectivenessReview);
    case StartEffectivenessReview(ids) => TurnsGrow(Free, s.table, ids, Review, EffectivenessReview);
    case MarkEffective(ids) => TurnsGrow(Free, s.table, ids, Effectiveness, Effective);
    case MarkIneffective(ids) => TurnsGrow(Free, s.table, ids, Effectiveness, Ineffective);
    case ReopenActions(ids) => TurnsGrow(Free, s.table, ids, Workflow, ActionPlanned);
    case Close(ids) => TurnsGrow(Free, s.table, ids, Closure, Closed);
    case Cancel(ids) => TurnsGrow(Free, s.table, ids, Closure, Cancelled);
    case _ =>
  }

  // ----- the workflow as a table -----

  function IdsOf(x: Action): seq<nat>
    requires IsWorkflow(x)
  {
    x.ids
  }

  /** Where an action takes a CAPA. */
  function Goal(x: Action): CapaState
    requires IsWorkflow(x)
  {
    match x
    case StartAnalysis(_) => Analysis
    case PlanActions(_) => ActionPlanned
    case StartImplementation(_) => Implementation
    case CompleteImplementation(_) => EffectivenessReview
    case StartEffectivenessReview(_) => EffectivenessReview
    case MarkEffective(_) => Effective
    case MarkIneffective(_) => Ineffective
    case ReopenActions(_) => ActionPlanned
    case Close(_) => Closed
    case Cancel(_) => Cancelled
  }

  /** What an action asks of a CAPA; only closing asks for a state. */
  predicate Guard(x: Action, c: Capa, state: CapaState)
    requires IsWorkflow(x)
  {
    match x
    case StartAnalysis(_) => c.prerequisites
    case PlanActions(_) => RootCauseComplete(c)
    case StartImplementation(_) => c.actions != []
    case CompleteImplementation(_) => ActionsDone(c)
    case MarkEffective(_) => c.effectivenessRequired ==> c.effectivenessNotes
    case MarkIneffective(_) => c.effectivenessNotes
    case Close(_) => state.Effective?
    case _ => true
  }

  /** Every listed CAPA exists and meets the action's guard. */
  predicate AllGuarded(s: File, x: Action)
    requires IsWorkflow(x)
  {
    forall k :: k in IdsOf(x) ==> k in s.capas && k in s.table.states && Guard(x, s.capas[k], s.table.states[k])
  }

  lemma MoveExactly(s: File, actor: Actor, ids: seq<nat>, kind: Kind, to: CapaState)
    ensures Move(s, actor, ids, kind, to).Some? <==> actor.manager && forall k :: k in ids ==> k in s.table.states
    ensures Move(s, actor, ids, kind, to).Some? ==>
      MovedTo(s.table.states, Move(s, actor, ids, kind, to).value.table.states, ids, to)
  {
    FreeTurnsSucceed(Free, s.table, ids, kind, to);
    if Move(s, actor, ids, kind, to).Some? {
      TurnsStates(Free, s.table, ids, kind, to);
    }
    hide Turns, MovedTo;
  }

  lemma StartWorkflow(s: File, actor: Actor, ids: seq<nat>)
    requires FileOk(s)
    ensures Start(s, actor, ids).Some? <==> actor.manager && AllGuarded(s, StartAnalysis(ids))
    ensures Start(s, actor, ids).Some? ==>
      MovedTo(s.table.states, Start(s, actor, ids).value.table.states, ids, Analysis)
  {
    SameRecords(s);
    StartExactly(s, actor, ids);
    hide Move, FileOk, InitializeEach, MovedTo;
    if Start(s, actor, ids).Some? {
      MoveExactly(s.(capas := InitializeEach(s.capas, ids).value), actor, ids, Workflow, Analysis);
    }
  }

  /**
   * A workflow action succeeds exactly for a manager and CAPAs that meet its guard, and takes them to its
   * goal and no others.
   */
  lemma WorkflowExactly(s: File, actor: Actor, x: Action)
    requires FileOk(s) && IsWorkflow(x)
    ensures Apply(s, actor, x).Some? <==> actor.manager && AllGuarded(s, x)
    ensures Apply(s, actor, x).Some? ==>
      MovedTo(s.table.states, Apply(s, actor, x).value.table.states, IdsOf(x), Goal(x))
  {
    hide FileOk;
    if x.StartAnalysis? {
      hide Start, MovedTo, AllGuarded;
      StartWorkflow(s, actor, x.ids);
    } else {
      SameRecords(s);
      OtherWorkflow(s, actor, x);
    }
  }

  lemma OtherWorkflow(s: File, actor: Actor, x: Action)
    requires IsWorkflow(x) && !x.StartAnalysis? && forall k :: k in s.capas <==> k in s.table.states
    ensures ApplyWorkflow(s, actor, x).Some? <==> actor.manager && AllGuarded(s, x)
    ensures ApplyWorkflow(s, actor, x).Some? ==>
      MovedTo(s.table.states, ApplyWorkflow(s, actor, x).value.table.states, IdsOf(x), Goal(x))
  {
    hide Move, RootCauseComplete, ActionsDone, MovedTo;
    var kind := if x.CompleteImplementation? || x.StartEffectivenessReview? then Review
                else if x.MarkEffective? || x.MarkIneffective? then Effectiveness
                else if x.Close? || x.Cancel? then Closure
                else Workflow;
    MoveExactly(s, actor, x.ids, kind, Goal(x));
    assert ApplyWorkflow(s, actor, x).Some? ==> ApplyWorkflow(s, actor, x) == Move(s, actor, x.ids, kind, Goal(x));
  }

  lemma SameRecords(s: File)
    requires FileOk(s)
    ensures forall k :: k in s.capas <==> k in s.table.states
  {
    hide CapaOk, TableOk;
  }
}
