/** Access to planned activities through their QMS documents (addons/pm_qms_app/models/mail_activity.py). */
module ActivityAccess {

  /** An activity names the document it is planned on. */
  datatype Activity = Activity(model: string, document: int)

  /** What the rest of the system decides: registered models and, document by document, who may do what. */
  datatype Policy = Policy(registered: set<string>, allows: (string, int, string) -> bool)

  type Store = map<nat, Activity>

  /** Activity ids by document, documents by model. */
  type Groups = map<string, map<int, seq<nat>>>

  function Prefix(): string { "pm.qms." }

  predicate IsQms(a: Activity) { Prefix() <= a.model }

  /** The simple rule: an ordinary activity, or one whose registered QMS document is allowed. */
  predicate Accessible(p: Policy, operation: string, a: Activity) {
    IsQms(a) ==> a.model in p.registered && p.allows(a.model, a.document, operation)
  }

  function Filter(p: Policy, operation: string, store: Store, ids: seq<nat>): (r: seq<nat>)
    requires forall x :: x in ids ==> x in store
  {
    if ids == [] then []
    else
      var last := ids[|ids| - 1];
      Filter(p, operation, store, ids[..|ids| - 1]) + (if Accessible(p, operation, store[last]) then [last] else [])
  }

  /** Models of the QMS start with pm.qms. and an activity of any other model is nobody's business here. */
  lemma AccessibleExactly(p: Policy, operation: string, a: Activity)
    ensures Accessible(p, operation, a)
            <==> || |a.model| < 7 || a.model[..7] != "pm.qms."
                 || (a.model in p.registered && p.allows(a.model, a.document, operation))
  {
    assert |Prefix()| == 7;
  }

  // ----- grouping -----

  function GroupOf(groups: Groups, a: Activity): seq<nat> {
    if a.model in groups && a.document in groups[a.model] then groups[a.model][a.document] else []
  }

  function AddTo(groups: Groups, a: Activity, x: nat): Groups {
    var documents := if a.model in groups then groups[a.model] else map[];
    groups[a.model := documents[a.document := GroupOf(groups, a) + [x]]]
  }

  predicate InGroup(groups: Groups, m: string, d: int, x: nat) {
    m in groups && d in groups[m] && x in groups[m][d]
  }

  /** The groups hold exactly the QMS activities of the list, each under its own document. */
  ghost predicate Grouped(groups: Groups, store: Store, ids: seq<nat>)
    requires forall x :: x in ids ==> x in store
  {
    forall m: string, d: int, x: nat ::
      InGroup(groups, m, d, x) <==> x in ids && IsQms(store[x]) && store[x] == Activity(m, d)
  }

  lemma AddToGroups(groups: Groups, store: Store, ids: seq<nat>, x: nat)
    requires (forall y :: y in ids + [x] ==> y in store) && (forall y :: y in ids ==> y in store)
    requires Grouped(groups, store, ids)
    ensures Grouped(if IsQms(store[x]) then AddTo(groups, store[x], x) else groups, store, ids + [x])
  {
    var after := if IsQms(store[x]) then AddTo(groups, store[x], x) else groups;
    forall m: string, d: int, y: nat
      ensures InGroup(after, m, d, y) <==> y in ids + [x] && IsQms(store[y]) && store[y] == Activity(m, d)
    {
      assert InGroup(groups, m, d, y) <==> y in ids && IsQms(store[y]) && store[y] == Activity(m, d);
      assert y in ids + [x] <==> y in ids || y == x;
      if IsQms(store[x]) {
        assert InGroup(after, m, d, y) <==> InGroup(groups, m, d, y) || (y == x && store[x] == Activity(m, d));
      }
    }
  }

  function AllIds(groups: Groups): set<nat> {
    set m, d, x | m in groups && d in groups[m] && x in groups[m][d] :: x
  }

  /** What one model's documents contribute; filtering documents decides each of them by itself. */
  function AllowedOf(p: Policy, operation: string, groups: Groups, m: string): set<nat>
    requires m in groups
  {
    if m !in p.registered then {}
    else
      set d, x | d in groups[m] && p.allows(m, d, operation) && x in groups[m][d] :: x
  }

  /** The ids contributed by a set of models. */
  ghost predicate Contributed(p: Policy, operation: string, groups: Groups, models: set<string>, allowed: set<nat>) {
    forall x: nat :: x in allowed <==> exists m :: m in models && m in groups && x in AllowedOf(p, operation, groups, m)
  }

  lemma QmsIds(groups: Groups, store: Store, ids: seq<nat>, x: nat)
    requires (forall y :: y in ids ==> y in store) && Grouped(groups, store, ids) && x in ids
    ensures x in AllIds(groups) <==> IsQms(store[x])
  {
    var a := store[x];
    assert InGroup(groups, a.model, a.document, x) <==> IsQms(a);
    if x in AllIds(groups) {
      var m, d :| m in groups && d in groups[m] && x in groups[m][d];
      assert InGroup(groups, m, d, x);
    }
  }

  lemma AllowedIds(p: Policy, operation: string, groups: Groups, store: Store, ids: seq<nat>, allowed: set<nat>, x: nat)
    requires (forall y :: y in ids ==> y in store) && Grouped(groups, store, ids) && x in ids
    requires Contributed(p, operation, groups, groups.Keys, allowed)
    ensures x in allowed <==> IsQms(store[x]) && Accessible(p, operation, store[x])
  {
    var a := store[x];
    assert InGroup(groups, a.model, a.document, x) <==> IsQms(a);
    if x in allowed {
      var m :| m in groups && x in AllowedOf(p, operation, groups, m);
      var d :| d in groups[m] && p.allows(m, d, operation) && x in groups[m][d];
      assert InGroup(groups, m, d, x);
    }
  }

  /** _qms_accessible: groups by document, filters group by group, and keeps the order of the records. */
  method QmsAccessible(p: Policy, operation: string, store: Store, ids: seq<nat>) returns (r: seq<nat>)
    requires forall x :: x in ids ==> x in store
    ensures r == Filter(p, operation, store, ids)
  {
    hide *;
    var groups: Groups := map[];
    assert Grouped(groups, store, ids[..0]) by {
      NoGroups(store, ids);
    }
    var i := 0;
    while i < |ids|
      invariant 0 <= i <= |ids| && Grouped(groups, store, ids[..i])
    {
      var x := ids[i];
      AddToGroups(groups, store, ids[..i], x);
      assert ids[..i + 1] == ids[..i] + [x];
      if IsQms(store[x]) {
        groups := AddTo(groups, store[x], x);
      }
      i := i + 1;
    }
    assert ids[..i] == ids;
    var allowed := AllowedQmsIds(p, operation, groups);
    var qms := AllIds(groups);
    r := [];
    assert Filter(p, operation, store, ids[..0]) == [] by {
      FilterStep(p, operation, store, ids, 0);
    }
    i := 0;
    while i < |ids|
      invariant 0 <= i <= |ids| && r == Filter(p, operation, store, ids[..i])
    {
      var x := ids[i];
      QmsIds(groups, store, ids, x);
      AllowedIds(p, operation, groups, store, ids, allowed, x);
      FilterStep(p, operation, store, ids, i);
      if x !in qms || x in allowed {
        r := r + [x];
      }
      i := i + 1;
    }
    assert ids[..i] == ids;
  }

  lemma NoGroups(store: Store, ids: seq<nat>)
    ensures Grouped(map[], store, ids[..0])
  {
  }

  lemma FilterStep(p: Policy, operation: string, store: Store, ids: seq<nat>, i: nat)
    requires (forall x :: x in ids ==> x in store) && i <= |ids|
    ensures i == 0 ==> Filter(p, operation, store, ids[..i]) == []
    ensures i < |ids| ==> Filter(p, operation, store, ids[..i + 1])
                          == Filter(p, operation, store, ids[..i])
                             + (if Accessible(p, operation, store[ids[i]]) then [ids[i]] else [])
    ensures i < |ids| && !IsQms(store[ids[i]]) ==> Accessible(p, operation, store[ids[i]])
  {
    if i < |ids| {
      assert ids[..i + 1][..i] == ids[..i];
    }
    hide Prefix;
  }

  method AllowedQmsIds(p: Policy, operation: string, groups: Groups) returns (allowed: set<nat>)
    ensures Contributed(p, operation, groups, groups.Keys, allowed)
  {
    hide AllowedOf;
    allowed := {};
    var done, todo := {}, groups.Keys;
    while todo != {}
      invariant done + todo == groups.Keys && done !! todo
      invariant Contributed(p, operation, groups, done, allowed)
      decreases |todo|
    {
      var m :| m in todo;
      allowed := allowed + AllowedOf(p, operation, groups, m);
      done, todo := done + {m}, todo - {m};
    }
  }

  // ----- search, search_count and the access check -----

  /** records[offset:][:limit], where no limit and a limit of zero both mean all. */
  function Page(s: seq<nat>, offset: nat, limit: nat): seq<nat> {
    var rest := if offset <= |s| then s[offset..] else [];
    if limit == 0 || |rest| <= limit then rest else rest[..limit]
  }

  method Search(p: Policy, superuser: bool, store: Store, matching: seq<nat>, offset: nat, limit: nat)
    returns (r: seq<nat>)
    requires forall x :: x in matching ==> x in store
    ensures r == Page(if superuser then matching else Filter(p, "read", store, matching), offset, limit)
  {
    if superuser {
      return Page(matching, offset, limit);
    }
    r := QmsAccessible(p, "read", store, matching);
    if offset != 0 {
      r := Page(r, offset, 0);
    }
    r := Page(r, 0, limit);
  }

  method SearchCount(p: Policy, superuser: bool, store: Store, matching: seq<nat>, limit: nat) returns (n: nat)
    requires forall x :: x in matching ==> x in store
    ensures n == |Page(if superuser then matching else Filter(p, "read", store, matching), 0, limit)|
  {
    if superuser {
      return if limit == 0 || |matching| <= limit then |matching| else limit;
    }
    var r := Search(p, false, store, matching, 0, limit);
    return |r|;
  }

  /** The first pages of a size, one after the other. */
  function Pages(s: seq<nat>, size: nat, count: nat): seq<nat> {
    if count == 0 then [] else Pages(s, size, count - 1) + Page(s, (count - 1) * size, size)
  }

  lemma PageExtends(s: seq<nat>, from: nat, size: nat)
    ensures (if from <= |s| then s[..from] else s) + Page(s, from, size)
            == if from + size <= |s| && size != 0 then s[..from + size] else s
  {
    if from <= |s| && from + size <= |s| && size != 0 {
      assert s[from..][..size] == s[from..from + size];
    } else if from <= |s| {
      assert s == s[..from] + s[from..];
    }
  }

  lemma OneMore(count: nat, size: nat)
    requires count > 0
    ensures count * size == (count - 1) * size + size
  {
  }

  lemma {:induction false} PagesArePrefixes(s: seq<nat>, size: nat, count: nat)
    requires 0 < size
    ensures Pages(s, size, count) == if count * size <= |s| then s[..count * size] else s
  {
    if count > 0 {
      hide Page;
      PagesArePrefixes(s, size, count - 1);
      var from := (count - 1) * size;
      PageExtends(s, from, size);
      OneMore(count, size);
    }
  }

  /** Consecutive pages of any size concatenate to the whole accessible list once they reach its end. */
  lemma PagesConcatenate(s: seq<nat>, size: nat, count: nat)
    requires 0 < size && |s| <= count * size
    ensures Pages(s, size, count) == s
  {
    PagesArePrefixes(s, size, count);
  }

  lemma {:induction false} FilterHolds(p: Policy, operation: string, store: Store, ids: seq<nat>, x: nat)
    requires forall y :: y in ids ==> y in store
    ensures x in Filter(p, operation, store, ids) <==> x in ids && Accessible(p, operation, store[x])
  {
    hide Accessible;
    if ids != [] {
      var earlier, last := ids[..|ids| - 1], ids[|ids| - 1];
      FilterHolds(p, operation, store, earlier, x);
      assert ids == earlier + [last];
    }
  }

  /** Filtering a list of accessible activities changes nothing. */
  lemma {:induction false} FilterOfAccessible(p: Policy, operation: string, store: Store, ids: seq<nat>)
    requires forall y :: y in ids ==> y in store && Accessible(p, operation, store[y])
    ensures Filter(p, operation, store, ids) == ids
  {
    hide Accessible;
    if ids != [] {
      FilterOfAccessible(p, operation, store, ids[..|ids| - 1]);
      assert ids == ids[..|ids| - 1] + [ids[|ids| - 1]];
    }
  }

  /** The records the document boundary forbids, in order. */
  function Forbidden(p: Policy, operation: string, store: Store, ids: seq<nat>): seq<nat>
    requires forall x :: x in ids ==> x in store
  {
    if ids == [] then []
    else
      var last := ids[|ids| - 1];
      Forbidden(p, operation, store, ids[..|ids| - 1]) + (if Accessible(p, operation, store[last]) then [] else [last])
  }

  lemma ForbiddenStep(p: Policy, operation: string, store: Store, ids: seq<nat>, i: nat)
    requires (forall x :: x in ids ==> x in store) && i <= |ids|
    ensures i == 0 ==> Forbidden(p, operation, store, ids[..i]) == []
    ensures i < |ids| ==> Forbidden(p, operation, store, ids[..i + 1])
                          == Forbidden(p, operation, store, ids[..i])
                             + (if Accessible(p, operation, store[ids[i]]) then [] else [ids[i]])
  {
    if i < |ids| {
      assert ids[..i + 1][..i] == ids[..i];
    }
    hide Prefix;
  }

  /** _check_access: what the ordinary check forbids, then what the document boundary forbids; nothing means access. */
  method CheckAccess(p: Policy, operation: string, store: Store, ids: seq<nat>, ordinary: seq<nat>)
    returns (forbidden: seq<nat>)
    requires forall x :: x in ids ==> x in store
    ensures forbidden == ordinary + Forbidden(p, operation, store, ids)
  {
    hide *;
    var allowed := QmsAccessible(p, operation, store, ids);
    forbidden := ordinary;
    ForbiddenStep(p, operation, store, ids, 0);
    var i := 0;
    while i < |ids|
      invariant 0 <= i <= |ids| && forbidden == ordinary + Forbidden(p, operation, store, ids[..i])
    {
      FilterHolds(p, operation, store, ids, ids[i]);
      ForbiddenStep(p, operation, store, ids, i);
      if ids[i] !in allowed {
        forbidden := forbidden + [ids[i]];
      }
      i := i + 1;
    }
    assert ids[..i] == ids;
  }

  lemma {:induction false} NothingForbidden(p: Policy, operation: string, store: Store, ids: seq<nat>)
    requires forall x :: x in ids ==> x in store
    ensures Forbidden(p, operation, store, ids) == [] <==> Filter(p, operation, store, ids) == ids
    ensures |Filter(p, operation, store, ids)| + |Forbidden(p, operation, store, ids)| == |ids|
  {
    hide Accessible;
    if ids != [] {
      NothingForbidden(p, operation, store, ids[..|ids| - 1]);
      assert ids == ids[..|ids| - 1] + [ids[|ids| - 1]];
    }
  }

  /** Whatever a user finds on any page, the check lets that user read: none of it is forbidden. */
  lemma FoundIsReadable(p: Policy, store: Store, matching: seq<nat>, offset: nat, limit: nat)
    requires forall x :: x in matching ==> x in store
    ensures var found := Page(Filter(p, "read", store, matching), offset, limit);
      (forall x :: x in found ==> x in store) && Forbidden(p, "read", store, found) == []
  {
    hide Filter, Forbidden, Accessible;
    var all := Filter(p, "read", store, matching);
    var found := Page(all, offset, limit);
    forall x | x in found
      ensures x in store && Accessible(p, "read", store[x])
    {
      assert x in all;
      FilterHolds(p, "read", store, matching, x);
    }
    FilterOfAccessible(p, "read", store, found);
    NothingForbidden(p, "read", store, found);
  }
}
