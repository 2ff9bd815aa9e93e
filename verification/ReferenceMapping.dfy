/** The 2026 implementation pack and its reference mappings (addons/pm_qms_iso9001/hooks.py). */
module ReferenceMapping {
  import opened Common
  import opened Definitions

  /** A control of the draft with its texts, its evidence examples and the references it maps. */
  datatype Control = Control(code: string, area: string, text: string, evidence: seq<string>,
                             references: seq<string>, complete: bool)

  datatype Area = Area(code: string, name: string)

  datatype Blueprint = Blueprint(areas: seq<Area>, controls: seq<Control>, inventory: seq<string>)

  /** One (control, reference) pair. */
  datatype Pair = Pair(control: string, reference: string)

  /**
   * What a record is searched by: the pack, its areas, the mapping profile, and for each control its own
   * record, its line in the pack, its activity, its evidence definitions and its mappings.
   */
  datatype Slot =
    | PackSlot
    | AreaSlot(code: string)
    | ProfileSlot
    | ControlSlot(code: string)
    | LineSlot(code: string)
    | ActivitySlot(code: string)
    | EvidenceSlot(code: string, n: nat)
    | MappingSlot(pair: Pair)

  /** The rest of a definition, as the blueprint gives it; packs, profiles and mappings must be drafts. */
  datatype Definition =
    | DraftState
    | Text(text: string, sequence: nat)
    | Line(area: string, sequence: nat)

  type Record = Row<Slot, Definition>

  function AreaCodes(areas: seq<Area>): seq<string> {
    seq(|areas|, i requires 0 <= i < |areas| => areas[i].code)
  }

  function Codes(controls: seq<Control>): seq<string> {
    seq(|controls|, i requires 0 <= i < |controls| => controls[i].code)
  }

  function PairsOf(c: Control): (r: seq<Pair>)
    ensures |r| == |c.references| && forall j :: 0 <= j < |r| ==> r[j] == Pair(c.code, c.references[j])
  {
    seq(|c.references|, j requires 0 <= j < |c.references| => Pair(c.code, c.references[j]))
  }

  /** All pairs of the blueprint, control by control. */
  function Pairs(controls: seq<Control>): seq<Pair> {
    if controls == [] then [] else Pairs(controls[..|controls| - 1]) + PairsOf(controls[|controls| - 1])
  }

  /** The validator's flattened list of mapped references. */
  function Mapped(controls: seq<Control>): seq<string> {
    if controls == [] then [] else Mapped(controls[..|controls| - 1]) + controls[|controls| - 1].references
  }

  predicate Accepted(b: Blueprint) {
    && NoDuplicates(AreaCodes(b.areas))
    && NoDuplicates(Codes(b.controls))
    && NoDuplicates(b.inventory)
    && ToSet(b.inventory) == ToSet(Mapped(b.controls))
    && forall c :: c in b.controls ==> c.area in AreaCodes(b.areas) && c.complete && c.references != []
  }

  function AreaWants(areas: seq<Area>): (r: seq<(Slot, Definition)>)
    ensures |r| == |areas|
    ensures forall i :: 0 <= i < |r| ==> r[i] == (AreaSlot(areas[i].code), Text(areas[i].name, 10 * (i + 1)))
  {
    seq(|areas|, i requires 0 <= i < |areas| => (AreaSlot(areas[i].code), Text(areas[i].name, 10 * (i + 1))))
  }

  function EvidenceWants(c: Control): (r: seq<(Slot, Definition)>)
    ensures |r| == |c.evidence|
    ensures forall j :: 0 <= j < |r| ==> r[j] == (EvidenceSlot(c.code, j + 1), Text(c.evidence[j], 10 * (j + 1)))
  {
    seq(|c.evidence|, j requires 0 <= j < |c.evidence| =>
      (EvidenceSlot(c.code, j + 1), Text(c.evidence[j], 10 * (j + 1))))
  }

  function MappingWants(c: Control): (r: seq<(Slot, Definition)>)
    ensures |r| == |c.references|
    ensures forall j :: 0 <= j < |r| ==> r[j] == (MappingSlot(Pair(c.code, c.references[j])), DraftState)
  {
    seq(|c.references|, j requires 0 <= j < |c.references| =>
      (MappingSlot(Pair(c.code, c.references[j])), DraftState))
  }

  /** The control itself, its line and its activity; n is its number in the draft. */
  function OwnWants(c: Control, n: nat): (r: seq<(Slot, Definition)>)
    ensures |r| == 3
  {
    [(ControlSlot(c.code), Text(c.text, 0)), (LineSlot(c.code), Line(c.area, 10 * n)),
     (ActivitySlot(c.code), Text(c.text, 0))]
  }

  function ControlWants(c: Control, n: nat): seq<(Slot, Definition)> {
    OwnWants(c, n) + (EvidenceWants(c) + MappingWants(c))
  }

  /** What the controls from the i-th on want, in the order of the loop. */
  function ControlsFrom(controls: seq<Control>, i: nat): seq<(Slot, Definition)>
    requires i <= |controls|
    decreases |controls| - i
  {
    if i == |controls| then [] else ControlWants(controls[i], i + 1) + ControlsFrom(controls, i + 1)
  }

  /** Everything the seed finds or creates. */
  function Wants(b: Blueprint): seq<(Slot, Definition)> {
    [(PackSlot, DraftState)] + (AreaWants(b.areas) + ([(ProfileSlot, DraftState)] + ControlsFrom(b.controls, 0)))
  }

  /** The whole seed: validation, the process it needs, the records, and the final comparison of the counter. */
  function Seeded(rows: seq<Record>, process: bool, b: Blueprint): Option<seq<Record>> {
    if Accepted(b) && process && |Pairs(b.controls)| == |b.inventory| then EnsureAll(rows, Wants(b), true) else None
  }

  // ----- the pigeonhole -----

  lemma {:induction false} PairsAndMapped(controls: seq<Control>)
    ensures |Pairs(controls)| == |Mapped(controls)|
    ensures forall j :: 0 <= j < |Pairs(controls)| ==> Pairs(controls)[j].reference == Mapped(controls)[j]
  {
    if controls != [] {
      PairsAndMapped(controls[..|controls| - 1]);
    }
  }

  /** For an accepted blueprint the final count agrees exactly when no reference is mapped twice. */
  lemma CountDetectsDuplicates(b: Blueprint)
    requires Accepted(b)
    ensures |Pairs(b.controls)| == |b.inventory| <==> NoDuplicates(Mapped(b.controls))
  {
    PairsAndMapped(b.controls);
    SetSize(b.inventory);
    SetSize(Mapped(b.controls));
    hide NoDuplicates, ToSet;
  }

  /** A reference is mapped by one pair and no other. */
  ghost predicate MappedOnce(pairs: seq<Pair>, reference: string) {
    exists j :: 0 <= j < |pairs| && pairs[j].reference == reference
      && forall k :: 0 <= k < |pairs| && pairs[k].reference == reference ==> k == j
  }

  lemma MappedOnceAt(pairs: seq<Pair>, mapped: seq<string>, reference: string)
    requires |pairs| == |mapped| && forall j :: 0 <= j < |pairs| ==> pairs[j].reference == mapped[j]
    requires NoDuplicates(mapped) && reference in mapped
    ensures MappedOnce(pairs, reference)
  {
    var j :| 0 <= j < |mapped| && mapped[j] == reference;
    assert pairs[j].reference == reference;
    forall k | 0 <= k < |pairs| && pairs[k].reference == reference
      ensures k == j
    {
      assert mapped[k] == mapped[j];
    }
  }

  lemma EachReferenceMappedOnce(b: Blueprint, reference: string)
    requires Accepted(b) && |Pairs(b.controls)| == |b.inventory| && reference in b.inventory
    ensures MappedOnce(Pairs(b.controls), reference)
  {
    hide Pairs, Mapped, MappedOnce, NoDuplicates, Codes;
    CountDetectsDuplicates(b);
    PairsAndMapped(b.controls);
    assert reference in ToSet(b.inventory);
    MappedOnceAt(Pairs(b.controls), Mapped(b.controls), reference);
  }

  // ----- the table -----

  predicate Maps(slot: Slot, reference: string) { slot.MappingSlot? && slot.pair.reference == reference }

  /** How many rows map a reference, and how many of them are none of the blueprint's pairs. */
  function RowsFor(rows: seq<Record>, reference: string): nat {
    if rows == [] then 0
    else RowsFor(rows[..|rows| - 1], reference) + (if Maps(rows[|rows| - 1].key, reference) then 1 else 0)
  }

  function StaleFor(rows: seq<Record>, pairs: seq<Pair>, reference: string): nat {
    if rows == [] then 0
    else
      var last := rows[|rows| - 1].key;
      StaleFor(rows[..|rows| - 1], pairs, reference) + (if Maps(last, reference) && last.pair !in pairs then 1 else 0)
  }

  lemma {:induction false} RowsSplit(rows: seq<Record>, pairs: seq<Pair>, p: Pair)
    requires p in pairs && forall q :: q in pairs && q.reference == p.reference ==> q == p
    ensures RowsFor(rows, p.reference) == |Found(rows, MappingSlot(p))| + StaleFor(rows, pairs, p.reference)
  {
    if rows != [] {
      RowsSplit(rows[..|rows| - 1], pairs, p);
    }
  }

  lemma {:induction false} StaleKept(rows: seq<Record>, added: seq<Record>, pairs: seq<Pair>, reference: string)
    requires forall r :: r in added && r.key.MappingSlot? ==> r.key.pair in pairs
    ensures StaleFor(rows + added, pairs, reference) == StaleFor(rows, pairs, reference)
    decreases |added|
  {
    if added == [] {
      assert rows + added == rows;
    } else {
      var fewer := added[..|added| - 1];
      StaleKept(rows, fewer, pairs, reference);
      assert (rows + added)[..|rows + added| - 1] == rows + fewer;
      assert (rows + added)[|rows + added| - 1] == added[|added| - 1];
    }
  }

  lemma ControlPairs(c: Control, n: nat)
    ensures forall w :: w in ControlWants(c, n) && w.0.MappingSlot? ==> w.0.pair in PairsOf(c)
    ensures forall p :: p in PairsOf(c) ==> (MappingSlot(p), DraftState) in ControlWants(c, n)
  {
    var wants := ControlWants(c, n);
    forall w | w in wants && w.0.MappingSlot?
      ensures w.0.pair in PairsOf(c)
    {
      assert w in MappingWants(c);
      var j :| 0 <= j < |c.references| && MappingWants(c)[j] == w;
      assert PairsOf(c)[j] == w.0.pair;
    }
    forall p | p in PairsOf(c)
      ensures (MappingSlot(p), DraftState) in wants
    {
      var j :| 0 <= j < |c.references| && PairsOf(c)[j] == p;
      assert MappingWants(c)[j] == (MappingSlot(p), DraftState);
    }
  }

  lemma {:induction false} FromPairs(controls: seq<Control>, i: nat)
    requires i <= |controls|
    ensures forall w :: w in ControlsFrom(controls, i) && w.0.MappingSlot? ==>
      exists k :: i <= k < |controls| && w.0.pair in PairsOf(controls[k])
    ensures forall k, p :: i <= k < |controls| && p in PairsOf(controls[k]) ==>
      (MappingSlot(p), DraftState) in ControlsFrom(controls, i)
    decreases |controls| - i
  {
    hide ControlWants, PairsOf;
    if i < |controls| {
      ControlPairs(controls[i], i + 1);
      FromPairs(controls, i + 1);
    }
  }

  lemma {:induction false} PairsOfEach(controls: seq<Control>)
    ensures forall p :: p in Pairs(controls) <==> exists k :: 0 <= k < |controls| && p in PairsOf(controls[k])
  {
    hide PairsOf;
    if controls != [] {
      var n := |controls| - 1;
      PairsOfEach(controls[..n]);
      assert forall k :: 0 <= k < n ==> controls[..n][k] == controls[k];
    }
  }

  /** The wanted mappings are exactly the blueprint's pairs, as drafts. */
  lemma WantedPairs(b: Blueprint)
    ensures forall w :: w in Wants(b) && w.0.MappingSlot? ==> w.0.pair in Pairs(b.controls)
    ensures forall p :: p in Pairs(b.controls) ==> (MappingSlot(p), DraftState) in Wants(b)
  {
    FromPairs(b.controls, 0);
    PairsOfEach(b.controls);
    hide Pairs, PairsOf, ControlsFrom;
  }

  /** The only pair of a reference, which is among the wanted mappings. */
  lemma OwnPair(b: Blueprint, reference: string) returns (p: Pair)
    requires Accepted(b) && |Pairs(b.controls)| == |b.inventory| && reference in b.inventory
    ensures p in Pairs(b.controls) && p.reference == reference
    ensures forall q :: q in Pairs(b.controls) && q.reference == reference ==> q == p
    ensures (MappingSlot(p), DraftState) in Wants(b)
  {
    hide Accepted, Pairs, Wants;
    var pairs := Pairs(b.controls);
    EachReferenceMappedOnce(b, reference);
    var j :| 0 <= j < |pairs| && pairs[j].reference == reference
      && forall k :: 0 <= k < |pairs| && pairs[k].reference == reference ==> k == j;
    p := pairs[j];
    WantedPairs(b);
  }

  /** A successful seed leaves everything it wants once, as defined, and a second one changes nothing. */
  lemma SeedDefinesEachOnce(rows: seq<Record>, process: bool, b: Blueprint)
    requires Seeded(rows, process, b).Some?
    ensures var after := Seeded(rows, process, b).value;
      && (forall w :: w in Wants(b) ==> Present(after, w.0, w.1))
      && rows <= after && (forall r :: r in after[|rows|..] ==> (r.key, r.value) in Wants(b))
      && Seeded(after, process, b) == Some(after)
  {
    hide Accepted, EnsureAll, Found, Wants, Pairs;
    var after := Seeded(rows, process, b).value;
    AllPresent(rows, Wants(b), true);
    OnlyWantedAdded(rows, Wants(b), true);
    NothingToDo(after, Wants(b), true);
  }

  // ----- in the words of the draft -----

  /**
   * A draft that the validator lets through: no code, control or inventory reference twice, every control
   * complete, in a listed area and with references, and every reference both listed and mapped.
   */
  ghost predicate Draft(b: Blueprint) {
    && (forall i, j :: 0 <= i < j < |b.areas| ==> b.areas[i].code != b.areas[j].code)
    && (forall i, j :: 0 <= i < j < |b.controls| ==> b.controls[i].code != b.controls[j].code)
    && (forall i, j :: 0 <= i < j < |b.inventory| ==> b.inventory[i] != b.inventory[j])
    && (forall i :: 0 <= i < |b.controls| ==>
          b.controls[i].complete && b.controls[i].references != []
          && exists k :: 0 <= k < |b.areas| && b.areas[k].code == b.controls[i].area)
    && (forall r :: r in b.inventory <==> exists i :: 0 <= i < |b.controls| && r in b.controls[i].references)
  }

  lemma {:induction false} MappedExactly(controls: seq<Control>, r: string)
    ensures r in Mapped(controls) <==> exists i :: 0 <= i < |controls| && r in controls[i].references
  {
    if controls != [] {
      var n := |controls| - 1;
      MappedExactly(controls[..n], r);
      assert forall i :: 0 <= i < n ==> controls[..n][i] == controls[i];
    }
  }

  lemma AreasExactly(areas: seq<Area>)
    ensures NoDuplicates(AreaCodes(areas)) <==> forall i, j :: 0 <= i < j < |areas| ==> areas[i].code != areas[j].code
    ensures forall c: string :: c in AreaCodes(areas) <==> exists k :: 0 <= k < |areas| && areas[k].code == c
  {
    var codes := AreaCodes(areas);
    assert |codes| == |areas| && forall i :: 0 <= i < |areas| ==> codes[i] == areas[i].code;
  }

  lemma CodesExactly(controls: seq<Control>)
    ensures NoDuplicates(Codes(controls))
            <==> forall i, j :: 0 <= i < j < |controls| ==> controls[i].code != controls[j].code
  {
    var codes := Codes(controls);
    assert |codes| == |controls| && forall i :: 0 <= i < |controls| ==> codes[i] == controls[i].code;
  }

  /** The validator lets exactly such drafts through. */
  lemma AcceptedExactly(b: Blueprint)
    ensures Accepted(b) <==> Draft(b)
  {
    AreasExactly(b.areas);
    CodesExactly(b.controls);
    forall r: string
      ensures r in Mapped(b.controls) <==> exists i :: 0 <= i < |b.controls| && r in b.controls[i].references
    {
      MappedExactly(b.controls, r);
    }
    hide AreaCodes, Codes, Mapped;
    assert ToSet(b.inventory) == ToSet(Mapped(b.controls)) <==>
      forall r: string :: r in b.inventory <==> r in Mapped(b.controls) by {
      SameText(b.inventory, Mapped(b.controls));
    }
    hide ToSet;
    assert forall c :: c in b.controls <==> exists i :: 0 <= i < |b.controls| && b.controls[i] == c;
  }

  lemma SameText(a: seq<string>, b: seq<string>)
    ensures ToSet(a) == ToSet(b) <==> forall r: string :: r in a <==> r in b
  {
    if ToSet(a) == ToSet(b) {
      forall r: string
        ensures r in a <==> r in b
      {
        assert r in a <==> r in ToSet(a);
        assert r in b <==> r in ToSet(b);
      }
    }
  }

  lemma {:induction false} FromHas(controls: seq<Control>, i: nat, k: nat, w: (Slot, Definition))
    requires i <= k < |controls| && w in ControlWants(controls[k], k + 1)
    ensures w in ControlsFrom(controls, i)
    decreases k - i
  {
    hide ControlWants;
    if i < k {
      FromHas(controls, i + 1, k, w);
    }
  }

  lemma WantsHave(b: Blueprint, k: nat, w: (Slot, Definition))
    requires k < |b.controls| && w in ControlWants(b.controls[k], k + 1)
    ensures w in Wants(b)
  {
    FromHas(b.controls, 0, k, w);
    hide ControlsFrom, ControlWants;
  }

  lemma WantsAreas(b: Blueprint)
    ensures (PackSlot, DraftState) in Wants(b) && (ProfileSlot, DraftState) in Wants(b)
    ensures forall k :: 0 <= k < |b.areas| ==>
      (AreaSlot(b.areas[k].code), Text(b.areas[k].name, 10 * (k + 1))) in Wants(b)
  {
    hide ControlsFrom;
    var areas, wants := AreaWants(b.areas), Wants(b);
    assert wants[0] == (PackSlot, DraftState) && wants[1 + |areas|] == (ProfileSlot, DraftState);
    forall k | 0 <= k < |b.areas|
      ensures (AreaSlot(b.areas[k].code), Text(b.areas[k].name, 10 * (k + 1))) in wants
    {
      assert wants[1 + k] == areas[k];
    }
  }

  /** After a successful seed: the pack and the profile, drafts still, and every area under its name and place. */
  lemma SeedLeavesAreas(rows: seq<Record>, process: bool, b: Blueprint)
    requires Seeded(rows, process, b).Some?
    ensures var after := Seeded(rows, process, b).value;
      && Present(after, PackSlot, DraftState) && Present(after, ProfileSlot, DraftState)
      && forall k :: 0 <= k < |b.areas| ==>
           Present(after, AreaSlot(b.areas[k].code), Text(b.areas[k].name, 10 * (k + 1)))
  {
    SeedDefinesEachOnce(rows, process, b);
    WantsAreas(b);
    hide Seeded, Wants, Present;
  }

  /**
   * And of every control: its own record, its line at its place in its area, its activity, its evidence
   * definitions numbered from one, and a draft mapping for each of its references.
   */
  lemma SeedLeavesControls(rows: seq<Record>, process: bool, b: Blueprint, k: nat)
    requires Seeded(rows, process, b).Some? && k < |b.controls|
    ensures var after, c := Seeded(rows, process, b).value, b.controls[k];
      && Present(after, ControlSlot(c.code), Text(c.text, 0))
      && Present(after, LineSlot(c.code), Line(c.area, 10 * (k + 1)))
      && Present(after, ActivitySlot(c.code), Text(c.text, 0))
      && (forall j :: 0 <= j < |c.evidence| ==>
            Present(after, EvidenceSlot(c.code, j + 1), Text(c.evidence[j], 10 * (j + 1))))
      && forall r :: r in c.references ==> Present(after, MappingSlot(Pair(c.code, r)), DraftState)
  {
    SeedDefinesEachOnce(rows, process, b);
    var after, c := Seeded(rows, process, b).value, b.controls[k];
    hide Seeded, Wants, Present;
    forall w | w in ControlWants(c, k + 1)
      ensures Present(after, w.0, w.1)
    {
      WantsHave(b, k, w);
    }
    ControlHas(c, k + 1);
    hide ControlWants;
  }

  lemma ControlHas(c: Control, n: nat)
    ensures var wants := ControlWants(c, n);
      && (ControlSlot(c.code), Text(c.text, 0)) in wants && (LineSlot(c.code), Line(c.area, 10 * n)) in wants
      && (ActivitySlot(c.code), Text(c.text, 0)) in wants
      && (forall j :: 0 <= j < |c.evidence| ==>
            (EvidenceSlot(c.code, j + 1), Text(c.evidence[j], 10 * (j + 1))) in wants)
      && forall r :: r in c.references ==> (MappingSlot(Pair(c.code, r)), DraftState) in wants
  {
    var own, evidence, mappings, wants := OwnWants(c, n), EvidenceWants(c), MappingWants(c), ControlWants(c, n);
    assert own[0] in wants && own[1] in wants && own[2] in wants;
    forall j | 0 <= j < |c.evidence|
      ensures (EvidenceSlot(c.code, j + 1), Text(c.evidence[j], 10 * (j + 1))) in wants
    {
      assert wants[3 + j] == evidence[j];
    }
    forall r | r in c.references
      ensures (MappingSlot(Pair(c.code, r)), DraftState) in wants
    {
      var j :| 0 <= j < |c.references| && c.references[j] == r;
      assert wants[3 + |c.evidence| + j] == mappings[j];
    }
  }

  /**
   * When the seed succeeds, every reference of the inventory has exactly one row that belongs to the
   * blueprint; without stale rows it has exactly one row.
   */
  lemma SeedMapsEachReferenceOnce(rows: seq<Record>, process: bool, b: Blueprint, reference: string)
    requires Seeded(rows, process, b).Some? && reference in b.inventory
    ensures RowsFor(Seeded(rows, process, b).value, reference) == 1 + StaleFor(rows, Pairs(b.controls), reference)
  {
    var pairs, after := Pairs(b.controls), Seeded(rows, process, b).value;
    SeedDefinesEachOnce(rows, process, b);
    hide Accepted, EnsureAll, Found, Wants, Pairs, RowsFor, StaleFor;
    var p := OwnPair(b, reference);
    WantedPairs(b);
    RowsSplit(after, pairs, p);
    assert after == rows + after[|rows|..];
    StaleKept(rows, after[|rows|..], pairs, reference);
    assert Present(after, MappingSlot(p), DraftState);
  }

  // ----- the loops -----

  lemma PairsGrow(controls: seq<Control>, i: nat)
    requires i < |controls|
    ensures Pairs(controls[..i + 1]) == Pairs(controls[..i]) + PairsOf(controls[i])
  {
    assert controls[..i + 1][..i] == controls[..i];
  }

  /** The tables, updated record by record; a raised error rolls the whole seed back. */
  class MappingTable {
    var rows: seq<Record>

    constructor (rows: seq<Record>)
      ensures this.rows == rows
    {
      this.rows := rows;
    }

    /** Finds, checks or creates one record. */
    method EnsureRecord(slot: Slot, definition: Definition) returns (ok: bool)
      modifies this
      ensures ok <==> Ensure(old(rows), slot, definition, true).Some?
      ensures rows == if ok then Ensure(old(rows), slot, definition, true).value else old(rows)
    {
      var next := Ensure(rows, slot, definition, true);
      ok := next.Some?;
      if ok {
        rows := next.value;
      }
    }

    /** A run of records of one kind, as the inner loops make them; rest is what the seed wants after it. */
    method EnsureEach(wants: seq<(Slot, Definition)>, ghost rest: seq<(Slot, Definition)>) returns (ok: bool)
      modifies this
      ensures ok ==> EnsureAll(rows, rest, true) == EnsureAll(old(rows), wants + rest, true)
      ensures !ok ==> EnsureAll(old(rows), wants + rest, true).None?
    {
      hide Ensure, EnsureAll;
      var i := 0;
      assert wants[0..] == wants;
      while i < |wants|
        invariant 0 <= i <= |wants|
        invariant EnsureAll(rows, wants[i..] + rest, true) == EnsureAll(old(rows), wants + rest, true)
      {
        assert wants[i..] + rest == [wants[i]] + (wants[i + 1..] + rest);
        EnsureAllHead(rows, wants[i], wants[i + 1..] + rest, true);
        ok := EnsureRecord(wants[i].0, wants[i].1);
        if !ok {
          return;
        }
        i := i + 1;
      }
      assert wants[i..] + rest == rest;
      ok := true;
    }

    /** seed_iso9001_2026_implementation_pack: the pack, its areas, the profile, then everything of each control. */
    method SeedMappings(process: bool, b: Blueprint) returns (ok: bool)
      modifies this
      ensures ok <==> Seeded(old(rows), process, b).Some?
      ensures rows == if ok then Seeded(old(rows), process, b).value else old(rows)
    {
      hide Accepted, EnsureAll, Pairs, PairsOf, ControlWants, OwnWants;
      if !Accepted(b) {
        return false;
      }
      var before := rows;
      ghost var controls := ControlsFrom(b.controls, 0);
      ghost var afterAreas := [(ProfileSlot, DraftState)] + controls;
      ok := EnsureEach([(PackSlot, DraftState)], AreaWants(b.areas) + afterAreas);
      if ok {
        ok := EnsureEach(AreaWants(b.areas), afterAreas);
      }
      if ok {
        ok := process;
      }
      if ok {
        ok := EnsureEach([(ProfileSlot, DraftState)], controls);
      }
      if !ok {
        rows := before;
        return;
      }
      assert EnsureAll(rows, controls, true) == EnsureAll(before, Wants(b), true);
      var seen, i := 0, 0;
      NoPairs(b.controls);
      while i < |b.controls|
        invariant 0 <= i <= |b.controls| && seen == |Pairs(b.controls[..i])|
        invariant before == old(rows) && process
        invariant EnsureAll(rows, ControlsFrom(b.controls, i), true) == EnsureAll(before, Wants(b), true)
      {
        hide Wants;
        ok := SeedControl(b.controls, i);
        if !ok {
          rows := before;
          return;
        }
        PairsGrow(b.controls, i);
        seen := seen + |b.controls[i].references|;
        i := i + 1;
      }
      assert b.controls[..i] == b.controls;
      EnsureNothing(rows, true);
      if seen != |b.inventory| {
        rows := before;
        return false;
      }
      return true;
    }

    /** One turn of the loop over controls. */
    method SeedControl(controls: seq<Control>, i: nat) returns (ok: bool)
      requires i < |controls|
      modifies this
      ensures ok ==> EnsureAll(rows, ControlsFrom(controls, i + 1), true)
                     == EnsureAll(old(rows), ControlsFrom(controls, i), true)
      ensures !ok ==> EnsureAll(old(rows), ControlsFrom(controls, i), true).None?
    {
      hide EnsureAll;
      var c := controls[i];
      ghost var rest := ControlsFrom(controls, i + 1);
      ghost var evidence, mappings := EvidenceWants(c), MappingWants(c);
      assert ControlsFrom(controls, i) == OwnWants(c, i + 1) + (evidence + (mappings + rest));
      ok := EnsureEach(OwnWants(c, i + 1), evidence + (mappings + rest));
      if ok {
        ok := EnsureEach(EvidenceWants(c), mappings + rest);
      }
      if ok {
        ok := EnsureEach(MappingWants(c), rest);
      }
    }
  }

  lemma NoPairs(controls: seq<Control>)
    ensures Pairs(controls[..0]) == []
  {
  }

  lemma EnsureNothing(rows: seq<Record>, create: bool)
    ensures EnsureAll(rows, [], create) == Some(rows)
  {
  }
}
