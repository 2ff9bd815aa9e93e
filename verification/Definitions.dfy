/** Finding or creating defined records, as the ISO 9001 seeders do (addons/pm_qms_iso9001/hooks.py). */
module Definitions {
  import opened Common

  /** A stored record: the key it is searched by and the rest of its definition. */
  datatype Row<K, V> = Row(key: K, value: V)

  function Found<K(==), V>(rows: seq<Row<K, V>>, k: K): seq<Row<K, V>> {
    if rows == [] then []
    else
      var earlier, last := Found(rows[..|rows| - 1], k), rows[|rows| - 1];
      if last.key == k then earlier + [last] else earlier
  }

  /** The first record of a key. */
  function Position<K(==), V>(rows: seq<Row<K, V>>, k: K): (r: Option<nat>)
    ensures r.Some? ==> r.value < |rows| && rows[r.value].key == k
  {
    if rows == [] then None
    else
      var n := |rows| - 1;
      var earlier := Position(rows[..n], k);
      if earlier.None? && rows[n].key == k then Some(n) else earlier
  }

  /** A duplicate, another definition, or a missing record that may not be created is an error. */
  function Ensure<K(==), V(==)>(rows: seq<Row<K, V>>, k: K, v: V, create: bool): Option<seq<Row<K, V>>> {
    var found := Found(rows, k);
    if |found| > 1 then None
    else if |found| == 1 then (if found[0].value == v then Some(rows) else None)
    else if create then Some(rows + [Row(k, v)])
    else None
  }

  function EnsureAll<K(==), V(==)>(rows: seq<Row<K, V>>, wants: seq<(K, V)>, create: bool): Option<seq<Row<K, V>>> {
    if wants == [] then Some(rows)
    else
      var earlier, last := EnsureAll(rows, wants[..|wants| - 1], create), wants[|wants| - 1];
      if earlier.None? then None else Ensure(earlier.value, last.0, last.1, create)
  }

  /** The key has one record, as defined. */
  predicate Present<K(==), V(==)>(rows: seq<Row<K, V>>, k: K, v: V) {
    |Found(rows, k)| == 1 && Found(rows, k)[0].value == v
  }

  lemma FoundAppended<K, V>(rows: seq<Row<K, V>>, row: Row<K, V>, k: K)
    ensures Found(rows + [row], k) == Found(rows, k) + (if row.key == k then [row] else [])
  {
    assert (rows + [row])[..|rows|] == rows;
  }

  lemma PositionAppended<K, V>(rows: seq<Row<K, V>>, row: Row<K, V>, k: K)
    ensures Position(rows + [row], k)
            == if Position(rows, k).None? && row.key == k then Some(|rows|) else Position(rows, k)
  {
    assert (rows + [row])[..|rows|] == rows;
  }

  lemma {:induction false} PositionOfFound<K, V>(rows: seq<Row<K, V>>, k: K)
    ensures Position(rows, k).None? <==> Found(rows, k) == []
    ensures |Found(rows, k)| == 1 ==> Position(rows, k).Some? && Found(rows, k) == [rows[Position(rows, k).value]]
  {
    if rows != [] {
      PositionOfFound(rows[..|rows| - 1], k);
    }
  }

  lemma {:induction false} PositionIsFirst<K, V>(rows: seq<Row<K, V>>, k: K, i: nat)
    requires i < |rows| && rows[i].key == k
    ensures Position(rows, k).Some? && Position(rows, k).value <= i
    ensures |Found(rows, k)| == 1 ==> Position(rows, k) == Some(i)
  {
    var n := |rows| - 1;
    PositionOfFound(rows[..n], k);
    if i < n {
      PositionIsFirst(rows[..n], k, i);
    }
  }

  lemma EnsureKeeps<K, V>(rows: seq<Row<K, V>>, k: K, v: V, create: bool, q: K)
    requires Ensure(rows, k, v, create).Some?
    ensures var after := Ensure(rows, k, v, create).value;
      && Present(after, k, v)
      && (q != k || Found(rows, q) != [] ==> Found(after, q) == Found(rows, q))
      && (Position(rows, q).Some? ==> Position(after, q) == Position(rows, q))
  {
    FoundAppended(rows, Row(k, v), k);
    FoundAppended(rows, Row(k, v), q);
    PositionAppended(rows, Row(k, v), q);
    hide Found, Position;
  }

  /** Everything wanted is there in the end, and what was there once stays where it is. */
  lemma {:induction false} AllPresent<K, V>(rows: seq<Row<K, V>>, wants: seq<(K, V)>, create: bool)
    requires EnsureAll(rows, wants, create).Some?
    ensures var after := EnsureAll(rows, wants, create).value;
      && (forall w :: w in wants ==> Present(after, w.0, w.1))
      && (forall q: K :: Found(rows, q) != [] ==>
            Found(after, q) == Found(rows, q) && Position(after, q) == Position(rows, q))
      && (forall q: K :: (forall w :: w in wants ==> w.0 != q) ==> Found(after, q) == Found(rows, q))
    decreases |wants|
  {
    if wants != [] {
      var fewer, last := wants[..|wants| - 1], wants[|wants| - 1];
      var before, after := EnsureAll(rows, fewer, create).value, EnsureAll(rows, wants, create).value;
      AllPresent(rows, fewer, create);
      hide Ensure, Found, Position;
      assert wants == fewer + [last];
      forall w | w in wants
        ensures Present(after, w.0, w.1)
      {
        EnsureKeeps(before, last.0, last.1, create, w.0);
      }
      forall q: K
        ensures Found(rows, q) != [] ==> Found(after, q) == Found(rows, q) && Position(after, q) == Position(rows, q)
        ensures q != last.0 ==> Found(after, q) == Found(before, q)
      {
        EnsureKeeps(before, last.0, last.1, create, q);
        PositionOfFound(rows, q);
      }
    }
  }

  /** The records that were there stay, in place; new ones are wanted ones, and only if creating is allowed. */
  lemma {:induction false} OnlyWantedAdded<K, V>(rows: seq<Row<K, V>>, wants: seq<(K, V)>, create: bool)
    requires EnsureAll(rows, wants, create).Some?
    ensures var after := EnsureAll(rows, wants, create).value;
      && rows <= after && (!create ==> after == rows)
      && forall r :: r in after[|rows|..] ==> (r.key, r.value) in wants
    decreases |wants|
  {
    if wants != [] {
      OnlyWantedAdded(rows, wants[..|wants| - 1], create);
      hide Found;
    }
  }

  /** Once everything wanted is there, ensuring it again changes nothing. */
  lemma {:induction false} NothingToDo<K, V>(rows: seq<Row<K, V>>, wants: seq<(K, V)>, create: bool)
    requires forall w :: w in wants ==> Present(rows, w.0, w.1)
    ensures EnsureAll(rows, wants, create) == Some(rows)
    decreases |wants|
  {
    if wants != [] {
      NothingToDo(rows, wants[..|wants| - 1], create);
      assert Present(rows, wants[|wants| - 1].0, wants[|wants| - 1].1);
      hide Found;
    }
  }

  /** Wanted records with keys of their own, none of them there yet, are all created. */
  lemma {:induction false} AllCreated<K, V>(rows: seq<Row<K, V>>, wants: seq<(K, V)>)
    requires forall w :: w in wants ==> Found(rows, w.0) == []
    requires forall i, j :: 0 <= i < j < |wants| ==> wants[i].0 != wants[j].0
    ensures EnsureAll(rows, wants, true).Some?
    decreases |wants|
  {
    if wants != [] {
      var fewer, last := wants[..|wants| - 1], wants[|wants| - 1];
      AllCreated(rows, fewer);
      AllPresent(rows, fewer, true);
      forall w | w in fewer
        ensures w.0 != last.0
      {
        var i :| 0 <= i < |fewer| && fewer[i] == w;
        assert wants[i].0 != wants[|wants| - 1].0;
      }
      assert Found(EnsureAll(rows, fewer, true).value, last.0) == Found(rows, last.0);
      hide Found;
    }
  }

  // ----- for the loops -----

  lemma EnsureAllAppends<K, V>(rows: seq<Row<K, V>>, wants: seq<(K, V)>, w: (K, V), create: bool)
    ensures EnsureAll(rows, wants + [w], create)
            == if EnsureAll(rows, wants, create).None? then None
               else Ensure(EnsureAll(rows, wants, create).value, w.0, w.1, create)
  {
    var all := wants + [w];
    assert all[..|all| - 1] == wants;
    hide Ensure;
  }

  lemma {:induction false} EnsureAllFails<K, V>(rows: seq<Row<K, V>>, wants: seq<(K, V)>, more: seq<(K, V)>,
                                                create: bool)
    requires EnsureAll(rows, wants, create).None?
    ensures EnsureAll(rows, wants + more, create).None?
    decreases |more|
  {
    if more == [] {
      assert wants + more == wants;
    } else {
      EnsureAllFails(rows, wants, more[..|more| - 1], create);
      assert wants + more == wants + more[..|more| - 1] + [more[|more| - 1]];
      EnsureAllAppends(rows, wants + more[..|more| - 1], more[|more| - 1], create);
    }
  }

  /** The first wanted record, then the rest. */
  lemma {:induction false} EnsureAllHead<K, V>(rows: seq<Row<K, V>>, w: (K, V), rest: seq<(K, V)>, create: bool)
    ensures EnsureAll(rows, [w] + rest, create)
            == if Ensure(rows, w.0, w.1, create).None? then None
               else EnsureAll(Ensure(rows, w.0, w.1, create).value, rest, create)
    decreases |rest|
  {
    hide Ensure;
    var all := [w] + rest;
    if rest == [] {
      assert all[..0] == [] && EnsureAll(rows, all[..0], create) == Some(rows);
    } else {
      assert all[..|all| - 1] == [w] + rest[..|rest| - 1];
      EnsureAllHead(rows, w, rest[..|rest| - 1], create);
    }
  }

  lemma EnsureAllStep<K, V>(rows: seq<Row<K, V>>, wants: seq<(K, V)>, i: nat, create: bool)
    requires i < |wants| && EnsureAll(rows, wants[..i], create).Some?
    ensures var next := Ensure(EnsureAll(rows, wants[..i], create).value, wants[i].0, wants[i].1, create);
      && EnsureAll(rows, wants[..i + 1], create) == next
      && (next.None? ==> EnsureAll(rows, wants, create).None?)
  {
    assert wants[..i + 1] == wants[..i] + [wants[i]];
    EnsureAllAppends(rows, wants[..i], wants[i], create);
    if EnsureAll(rows, wants[..i + 1], create).None? {
      assert wants == wants[..i + 1] + wants[i + 1..];
      EnsureAllFails(rows, wants[..i + 1], wants[i + 1..], create);
    }
    hide Ensure, EnsureAll;
  }
}
