/** Decimal text of natural numbers: str(n), int(s), isdigit and zfill(2) on ASCII text. */
module Decimal {
  predicate IsDigit(c: char) { '0' <= c <= '9' }

  /** str.isdigit() on ASCII text: the empty string is not a number. */
  predicate IsNumber(s: string) {
    s != "" && forall k :: 0 <= k < |s| ==> IsDigit(s[k])
  }

  function Digit(d: nat): (c: char)
    requires d < 10
    ensures IsDigit(c) && Value(c) == d
  {
    '0' + d as char
  }

  function Value(c: char): nat
    requires IsDigit(c)
  {
    (c as int) - ('0' as int)
  }

  function Print(n: nat): (s: string)
    ensures IsNumber(s)
  {
    if n < 10 then [Digit(n)] else Print(n / 10) + [Digit(n % 10)]
  }

  function Parse(s: string): nat
    requires IsNumber(s)
  {
    var last := Value(s[|s| - 1]);
    if |s| == 1 then last else 10 * Parse(s[..|s| - 1]) + last
  }

  /** str(n).zfill(2), also f"{n:02d}". */
  function ZeroFill2(s: string): (r: string)
    requires IsNumber(s)
    ensures IsNumber(r)
  {
    if |s| < 2 then "0" + s else s
  }

  lemma {:induction false} ParsePrint(n: nat)
    ensures Parse(Print(n)) == n
  {
    if 10 <= n {
      ParsePrint(n / 10);
      assert Print(n)[..|Print(n)| - 1] == Print(n / 10);
    }
  }

  /** Zero padding does not change the number read back. */
  lemma ParseZeroFilled(n: nat)
    ensures Parse(ZeroFill2(Print(n))) == n
  {
    ParsePrint(n);
    var s := Print(n);
    if |s| < 2 {
      assert ("0" + s)[..1] == "0" && Parse("0") == 0;
    }
  }

  lemma ZeroFilledDiffer(m: nat, n: nat)
    requires m != n
    ensures ZeroFill2(Print(m)) != ZeroFill2(Print(n))
  {
    ParseZeroFilled(m);
    ParseZeroFilled(n);
    hide Parse, Print, ZeroFill2;
  }
}
