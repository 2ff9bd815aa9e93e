/** Small datatypes and text helpers shared by every component. */
module Common {
  datatype Option<+T> = None | Some(value: T)

  /** BackupError-like failures are caught and rolled back by the tools; anything else escapes. */
  datatype Result<+T> = Ok(value: T) | Err(kind: Failure)

  datatype Failure = Refused | Escaped

  predicate NoDuplicates<T(==)>(s: seq<T>) {
    forall i, j :: 0 <= i < j < |s| ==> s[i] != s[j]
  }

  lemma NoDuplicatesCons<T>(head: T, rest: seq<T>)
    requires NoDuplicates(rest) && head !in rest
    ensures NoDuplicates([head] + rest)
  {
    var all := [head] + rest;
    assert forall i :: 0 < i < |all| ==> all[i] == rest[i - 1];
  }

  lemma DistinctSnoc<T>(s: seq<T>, last: T)
    requires NoDuplicates(s) && last !in s
    ensures NoDuplicates(s + [last])
  {
    var all := s + [last];
    assert forall i :: 0 <= i < |s| ==> all[i] == s[i];
  }

  lemma DistinctLast<T>(s: seq<T>)
    requires s != []
    ensures NoDuplicates(s) <==> NoDuplicates(s[..|s| - 1]) && s[|s| - 1] !in s[..|s| - 1]
  {
    var n := |s| - 1;
    if !NoDuplicates(s) && NoDuplicates(s[..n]) {
      var i, j :| 0 <= i < j < |s| && s[i] == s[j];
      assert j == n && s[..n][i] == s[n];
    }
  }

  function ToSet<T>(s: seq<T>): (r: set<T>) {
    set x | x in s
  }

  /** Strict order of Python strings: by code point, a proper prefix first. */
  predicate TextLess(a: string, b: string) {
    if b == "" then false
    else if a == "" then true
    else a[0] < b[0] || (a[0] == b[0] && TextLess(a[1..], b[1..]))
  }

  /** At the first difference the character is less, or the text ends first. */
  predicate Precedes(a: string, b: string) {
    exists k :: 0 <= k <= |a| && SplitsAt(a, b, k)
  }

  predicate SplitsAt(a: string, b: string, k: int)
    requires 0 <= k <= |a|
  {
    k < |b| && a[..k] == b[..k] && (k == |a| || a[k] < b[k])
  }

  lemma SplitAgrees(a: string, b: string, k: int)
    requires 0 < k <= |a| && SplitsAt(a, b, k)
    ensures b != "" && a[0] == b[0]
  {
    assert a[..k][0] == b[..k][0];
  }

  lemma {:induction false} TextLessExactly(a: string, b: string)
    ensures TextLess(a, b) <==> Precedes(a, b)
  {
    if b == "" || a == "" || a[0] != b[0] {
      assert a == "" && b != "" ==> SplitsAt(a, b, 0);
      assert a != "" && b != "" && a[0] < b[0] ==> SplitsAt(a, b, 0);
      if k :| 0 <= k <= |a| && SplitsAt(a, b, k) && k > 0 {
        SplitAgrees(a, b, k);
      }
    } else {
      TextLessExactly(a[1..], b[1..]);
      if k :| 0 <= k <= |a| && SplitsAt(a, b, k) {
        assert k > 0 && a[..k][1..] == a[1..][..k - 1] && b[..k][1..] == b[1..][..k - 1];
        assert SplitsAt(a[1..], b[1..], k - 1);
      }
      if k :| 0 <= k <= |a[1..]| && SplitsAt(a[1..], b[1..], k) {
        assert a[..k + 1] == [a[0]] + a[1..][..k] && b[..k + 1] == [b[0]] + b[1..][..k];
        assert SplitsAt(a, b, k + 1);
      }
    }
  }

  lemma {:induction false} TextLessTotal(a: string, b: string)
    ensures TextLess(a, b) || TextLess(b, a) || a == b
  {
    if a != "" && b != "" && a[0] == b[0] {
      TextLessTotal(a[1..], b[1..]);
      assert a == [a[0]] + a[1..] && b == [b[0]] + b[1..];
    }
  }

  lemma {:induction false} TextLessAsymmetric(a: string, b: string)
    requires TextLess(a, b)
    ensures !TextLess(b, a) && a != b
  {
    if a != "" && a[0] == b[0] {
      TextLessAsymmetric(a[1..], b[1..]);
    }
  }

  lemma {:induction false} TextLessTransitive(a: string, b: string, c: string)
    requires TextLess(a, b) && TextLess(b, c)
    ensures TextLess(a, c)
  {
    if a != "" && a[0] == b[0] && b[0] == c[0] {
      TextLessTransitive(a[1..], b[1..], c[1..]);
    }
  }

  predicate EndsWith(s: string, suffix: string) {
    |suffix| <= |s| && s[|s| - |suffix|..] == suffix
  }

  /** A list without duplicates is as long as the set of its elements, and only such a list is. */
  lemma {:induction false} SetSize<T>(s: seq<T>)
    ensures |ToSet(s)| <= |s|
    ensures |ToSet(s)| == |s| <==> NoDuplicates(s)
  {
    if s == [] {
    } else {
      var rest := s[1..];
      SetSize(rest);
      assert s == [s[0]] + rest;
      assert ToSet(s) == {s[0]} + ToSet(rest);
      if NoDuplicates(s) {
        assert NoDuplicates(rest);
      }
      if s[0] in rest {
        var k :| 0 <= k < |rest| && rest[k] == s[0];
        assert s[k + 1] == s[0];
      } else if NoDuplicates(rest) {
        assert NoDuplicates(s);
      }
    }
  }
}
