/**
 * Decimal text of integers: Python's `str(int)` (used to build job names such as
 * `pinger_job_-1001234`) and the part of Python's `int(text)` that the interval
 * dialog relies on (an optional sign followed by ASCII digits).
 */
module Decimal {
  import opened Options

  predicate IsDigit(c: char) {
    '0' <= c <= '9'
  }

  predicate AllDigits(s: string) {
    forall i :: 0 <= i < |s| ==> IsDigit(s[i])
  }

  function DigitChar(d: nat): (c: char)
    requires d < 10
    ensures IsDigit(c) && c as int - '0' as int == d
  {
    ('0' as int + d) as char
  }

  /** The digits of `n`, most significant first, with no leading zero. */
  function Digits(n: nat): (s: string)
    ensures 1 <= |s| && AllDigits(s)
    ensures n >= 10 <==> |s| >= 2
    decreases n
  {
    if n < 10 then [DigitChar(n)] else Digits(n / 10) + [DigitChar(n % 10)]
  }

  /** Python's `str(i)` for an int. */
  function Show(i: int): (s: string)
    ensures 1 <= |s|
    ensures (i < 0) <==> s[0] == '-'
  {
    if i < 0 then "-" + Digits(-i) else Digits(i)
  }

  /** The number a string of ASCII digits denotes (leading zeros allowed, as in Python). */
  function DigitsValue(s: string): nat
    requires AllDigits(s)
    decreases |s|
  {
    if s == [] then 0 else DigitsValue(s[..|s| - 1]) * 10 + (s[|s| - 1] as int - '0' as int)
  }

  /**
   * `int(text)`: an optional `+` or `-` followed by one or more ASCII digits;
   * `None` stands for the ValueError Python raises on anything else.
   */
  function ParseInt(s: string): (r: Option<int>)
    ensures r.None? <==> (s == [] || !AllDigits(if s[0] == '-' || s[0] == '+' then s[1..] else s)
                          || ((s[0] == '-' || s[0] == '+') && |s| == 1))
  {
    if |s| >= 2 && (s[0] == '-' || s[0] == '+') && AllDigits(s[1..]) then
      var v: int := DigitsValue(s[1..]);
      Some(if s[0] == '-' then -v else v)
    else if |s| >= 1 && AllDigits(s) then
      Some(DigitsValue(s))
    else
      None
  }

  lemma {:induction false} DigitsValueOfDigits(n: nat)
    ensures DigitsValue(Digits(n)) == n
    decreases n
  {
    if n >= 10 {
      var s := Digits(n);
      assert s[..|s| - 1] == Digits(n / 10);
      DigitsValueOfDigits(n / 10);
    }
  }

  /** Parsing what `str` prints gives the number back. */
  lemma ParseShow(i: int)
    ensures ParseInt(Show(i)) == Some(i)
  {
    var s := Show(i);
    if i < 0 {
      assert s[1..] == Digits(-i);
      assert |s| >= 2 && s[0] == '-' && AllDigits(s[1..]);
      DigitsValueOfDigits(-i);
      var v: int := DigitsValue(s[1..]);
      assert ParseInt(s) == Some(-v);
    } else {
      assert s == Digits(i) && IsDigit(s[0]);
      DigitsValueOfDigits(i);
      assert ParseInt(s) == Some(DigitsValue(s));
    }
  }

  /** Different integers print differently, so job names never collide. */
  lemma ShowInjective(a: int, b: int)
    requires Show(a) == Show(b)
    ensures a == b
  {
    ParseShow(a);
    ParseShow(b);
  }
}
