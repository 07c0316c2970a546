/**
 * Decimal rendering of natural numbers, as a JavaScript template literal `${n}`
 * renders an integer-valued number, and a reader that recovers the number.
 */
module Decimal {
  import opened Wrappers

  predicate IsDigit(c: char) {
    '0' <= c <= '9'
  }

  predicate AllDigits(t: string) {
    forall i :: 0 <= i < |t| ==> IsDigit(t[i])
  }

  function DigitChar(d: nat): (c: char)
    requires d < 10
    ensures IsDigit(c) && c as int - '0' as int == d
  {
    ('0' as int + d) as char
  }

  /** `${n}` for a natural number n: its digits, most significant first, without leading zeros. */
  function Show(n: nat): (t: string)
    ensures |t| >= 1 && AllDigits(t)
    ensures t[0] == '0' ==> n == 0
    decreases n
  {
    if n < 10 then [DigitChar(n)] else Show(n / 10) + [DigitChar(n % 10)]
  }

  /** The number a string of digits denotes. */
  function Value(t: string): nat
    requires AllDigits(t)
  {
    if t == [] then 0 else Value(t[..|t| - 1]) * 10 + (t[|t| - 1] as int - '0' as int)
  }

  lemma {:induction false} ValueShow(n: nat)
    ensures Value(Show(n)) == n
    decreases n
  {
    if n >= 10 {
      var t := Show(n);
      assert t[..|t| - 1] == Show(n / 10);
      ValueShow(n / 10);
    }
  }

  /** Length of the run of digits at the start of t. */
  function DigitRun(t: string): (k: nat)
    ensures k <= |t| && AllDigits(t[..k])
    ensures k < |t| ==> !IsDigit(t[k])
  {
    if t == [] || !IsDigit(t[0]) then 0
    else
      var k := 1 + DigitRun(t[1..]);
      assert forall i :: 1 <= i < k ==> t[..k][i] == t[1..][..k - 1][i - 1];
      k
  }

  /** Reads the decimal number at the start of t; yields it and the text after it. */
  function ReadNumber(t: string): Option<(nat, string)> {
    var k := DigitRun(t);
    if k == 0 then None else Some((Value(t[..k]), t[k..]))
  }

  lemma {:induction false} DigitRunAfterDigits(d: string, tail: string)
    requires AllDigits(d)
    requires tail == [] || !IsDigit(tail[0])
    ensures DigitRun(d + tail) == |d|
  {
    if d == [] {
      assert d + tail == tail;
    } else {
      assert (d + tail)[1..] == d[1..] + tail;
      DigitRunAfterDigits(d[1..], tail);
    }
  }

  /** Reading back what Show wrote, followed by any text that does not start with a digit. */
  lemma ReadShow(n: nat, tail: string)
    requires tail == [] || !IsDigit(tail[0])
    ensures ReadNumber(Show(n) + tail) == Some((n, tail))
  {
    var d := Show(n);
    DigitRunAfterDigits(d, tail);
    assert (d + tail)[..|d|] == d;
    assert (d + tail)[|d|..] == tail;
    ValueShow(n);
  }
}
