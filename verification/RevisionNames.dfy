/** The automatic revision label of addons/pm_qms_documents/models/document.py. */
module RevisionNames {
  import opened Decimal

  function Numeric(labels: seq<string>): seq<nat> {
    if labels == [] then []
    else
      var earlier, last := Numeric(labels[..|labels| - 1]), labels[|labels| - 1];
      if IsNumber(last) then earlier + [Parse(last)] else earlier
  }

  function Max(s: seq<nat>): nat
    requires s != []
  {
    if |s| == 1 then s[0]
    else
      var m := Max(s[..|s| - 1]);
      if m < s[|s| - 1] then s[|s| - 1] else m
  }

  /** _next_revision_name: one more than the greatest number, else one more than the number of labels. */
  function NextRevisionName(labels: seq<string>): string {
    if Numeric(labels) != [] then ZeroFill2(Print(Max(Numeric(labels)) + 1))
    else if labels == [] then "01"
    else ZeroFill2(Print(|labels| + 1))
  }

  lemma {:induction false} NumericHolds(labels: seq<string>, name: string)
    requires name in labels && IsNumber(name)
    ensures Parse(name) in Numeric(labels)
  {
    var n := |labels| - 1;
    if labels[n] != name {
      assert name in labels[..n];
      NumericHolds(labels[..n], name);
    }
  }

  lemma {:induction false} MaxBounds(s: seq<nat>, x: nat)
    requires x in s
    ensures x <= Max(s)
  {
    var n := |s| - 1;
    if s[n] != x {
      assert x in s[..n];
      MaxBounds(s[..n], x);
    }
  }

  /** The label is always new, and its number lies above every numeric label's. */
  lemma NextIsFresh(labels: seq<string>)
    ensures NextRevisionName(labels) !in labels
    ensures IsNumber(NextRevisionName(labels))
    ensures forall s :: s in labels && IsNumber(s) ==> Parse(s) < Parse(NextRevisionName(labels))
  {
    hide Parse, Print, IsNumber, ZeroFill2;
    var next := NextRevisionName(labels);
    forall s | s in labels && IsNumber(s)
      ensures Parse(s) < Parse(next)
    {
      NumericHolds(labels, s);
      MaxBounds(Numeric(labels), Parse(s));
      ParseZeroFilled(Max(Numeric(labels)) + 1);
    }
    assert IsNumber(next) by {
      FirstIsNumber();
    }
  }

  lemma FirstIsNumber()
    ensures "01" == ZeroFill2(Print(1)) && IsNumber("01")
  {
  }

  /** A numeral of at least two digits, without more leading zeros than that takes. */
  predicate TwoDigits(name: string) {
    IsNumber(name) && |name| >= 2 && (|name| > 2 ==> name[0] != '0')
  }

  lemma {:induction false} NumericFrom(labels: seq<string>, n: nat)
    requires n in Numeric(labels)
    ensures exists other :: other in labels && IsNumber(other) && Parse(other) == n
  {
    hide Parse;
    var rest, last := labels[..|labels| - 1], labels[|labels| - 1];
    if !(IsNumber(last) && Parse(last) == n) {
      NumericFrom(rest, n);
      var other :| other in rest && IsNumber(other) && Parse(other) == n;
      assert other in labels;
    }
  }

  lemma {:induction false} MaxReached(s: seq<nat>)
    requires s != []
    ensures Max(s) in s
  {
    if |s| > 1 {
      MaxReached(s[..|s| - 1]);
    }
  }

  lemma {:induction false} PrintLeads(n: nat)
    requires n > 0
    ensures Print(n)[0] != '0' && (|Print(n)| == 1 <==> n < 10)
  {
    if n >= 10 {
      PrintLeads(n / 10);
    }
  }

  lemma FilledTwoDigits(n: nat)
    requires n > 0
    ensures TwoDigits(ZeroFill2(Print(n)))
  {
    PrintLeads(n);
    hide Print;
  }

  /** The next label is one more than the greatest numeral, or than the count of labels when there is none. */
  lemma NextExactly(labels: seq<string>)
    ensures TwoDigits(NextRevisionName(labels))
    ensures var next := Parse(NextRevisionName(labels));
      if exists other :: other in labels && IsNumber(other)
      then exists other :: other in labels && IsNumber(other) && Parse(other) + 1 == next
      else next == |labels| + 1
  {
    hide Parse, Print, IsNumber, ZeroFill2, Max, TwoDigits;
    FirstIsNumber();
    var numbers := Numeric(labels);
    if other :| other in labels && IsNumber(other) {
      NumericHolds(labels, other);
      MaxReached(numbers);
      NumericFrom(labels, Max(numbers));
      FilledTwoDigits(Max(numbers) + 1);
      ParseZeroFilled(Max(numbers) + 1);
    } else {
      if numbers != [] {
        NumericFrom(labels, numbers[0]);
      }
      FilledTwoDigits(|labels| + 1);
      ParseZeroFilled(|labels| + 1);
    }
  }

  /** The labels a document gets when every revision takes the automatic one. */
  function Labels(n: nat): seq<string> {
    if n == 0 then [] else Labels(n - 1) + [NextRevisionName(Labels(n - 1))]
  }

  lemma {:induction false} LabelsCount(n: nat)
    ensures |Labels(n)| == n
    ensures 0 < n ==> Numeric(Labels(n)) != [] && Max(Numeric(Labels(n))) == n
    ensures NextRevisionName(Labels(n)) == ZeroFill2(Print(n + 1))
  {
    hide Parse, Print, IsNumber, ZeroFill2;
    FirstIsNumber();
    if 0 < n {
      LabelsCount(n - 1);
      var earlier := Labels(n - 1);
      assert Labels(n)[..n - 1] == earlier;
      ParseZeroFilled(n);
      var numbers := Numeric(Labels(n));
      assert numbers == Numeric(earlier) + [n];
      assert numbers[..|numbers| - 1] == Numeric(earlier);
    }
  }

  /** Automatic labels count up from 01: the k-th is k, padded to two digits. */
  lemma AutomaticLabels(n: nat, k: nat)
    requires k < n
    ensures |Labels(n)| == n && Labels(n)[k] == ZeroFill2(Print(k + 1))
  {
    LabelsCount(n);
    LabelsCount(n - 1);
    hide NextRevisionName, ZeroFill2;
    if k < n - 1 {
      AutomaticLabels(n - 1, k);
    }
  }
}
