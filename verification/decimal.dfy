/** Decimal digit strings: JavaScript's `String(n)` / `${n}` of a natural
    number and `parseInt` / Python `int` of a plain digit string. */
module Decimal {
  import opened Wrappers

  predicate IsDigit(c: char) {
    '0' <= c <= '9'
  }

  predicate AllDigits(s: string) {
    forall i :: 0 <= i < |s| ==> IsDigit(s[i])
  }

  function DigitValue(c: char): nat
    requires IsDigit(c)
  {
    (c - '0') as nat
  }

  function DigitChar(d: nat): (c: char)
    requires d < 10
    ensures IsDigit(c) && DigitValue(c) == d
  {
    ('0' as int + d) as char
  }

  /** The number a digit string denotes, read most significant digit first. */
  function Value(s: string): nat
    requires AllDigits(s)
  {
    if |s| == 0 then 0 else Value(s[..|s|-1]) * 10 + DigitValue(s[|s|-1])
  }

  /** Canonical decimal rendering: no sign, no leading zero except "0" itself. */
  function Show(n: nat): (r: string)
    ensures |r| > 0 && AllDigits(r)
    ensures Value(r) == n
    ensures |r| > 1 ==> r[0] != '0'
    ensures n == 0 <==> r == "0"
  {
    if n < 10 then [DigitChar(n)]
    else
      var prefix := Show(n / 10);
      var r := prefix + [DigitChar(n % 10)];
      assert r[..|r|-1] == prefix;
      r
  }

  /** An optionally negative decimal integer: `-`? digit+; anything else is
      rejected with None. */
  function ParseInt(s: string): (r: Option<int>)
    ensures r.Some? <==> (|s| > 0 && AllDigits(s)) || (|s| > 1 && s[0] == '-' && AllDigits(s[1..]))
    ensures r.Some? && s[0] != '-' ==> AllDigits(s) && r.value == Value(s)
    ensures r.Some? && s[0] == '-' ==> AllDigits(s[1..]) && r.value == -(Value(s[1..]) as int)
  {
    if |s| > 0 && AllDigits(s) then Some(Value(s) as int)
    else if |s| > 1 && s[0] == '-' && AllDigits(s[1..]) then Some(-(Value(s[1..]) as int))
    else None
  }

  /** Reading back a rendered number gives the number. */
  lemma ParseShow(n: nat)
    ensures ParseInt(Show(n)) == Some(n as int)
  {
  }

  /** Reading back a rendered number after a minus sign gives its
      negation. */
  lemma ParseNegatedShow(n: nat)
    ensures ParseInt("-" + Show(n)) == Some(-(n as int))
  {
    var s := "-" + Show(n);
    assert s[1..] == Show(n);
    assert !AllDigits(s) by {
      assert !IsDigit(s[0]);
    }
  }

  /** Distinct numbers render differently. */
  lemma ShowInjective(a: nat, b: nat)
    requires Show(a) == Show(b)
    ensures a == b
  {
    assert Value(Show(a)) == a;
  }
}
