/**
 * The `%d` verb of Go's formatted printing, as the footer uses it for the
 * countdown: base-ten digits with no leading zeros and a leading '-' for
 * negative values. `ParseInt` reads such text back and is its inverse.
 */
module Decimal {
  import opened Wrappers

  predicate IsDigit(c: char)
  {
    '0' <= c <= '9'
  }

  function Digit(d: nat): (c: char)
    requires d < 10
    ensures IsDigit(c)
  {
    ('0' as int + d) as char
  }

  function DigitValue(c: char): (d: nat)
    requires IsDigit(c)
    ensures d < 10 && Digit(d) == c
  {
    c as int - '0' as int
  }

  /** The digits of n, most significant first. */
  function FromNat(n: nat): (s: string)
    ensures |s| >= 1
    ensures forall i :: 0 <= i < |s| ==> IsDigit(s[i])
    ensures s[0] == '0' ==> n == 0 && s == "0"
    decreases n
  {
    if n < 10 then [Digit(n)] else FromNat(n / 10) + [Digit(n % 10)]
  }

  /** What `fmt.Sprintf("%d", n)` writes. */
  function FromInt(n: int): (s: string)
    ensures |s| >= 1
    ensures s[0] == '-' <==> n < 0
  {
    if n < 0 then "-" + FromNat(-n) else FromNat(n)
  }

  /** The value of a non-empty string of digits; None for anything else. */
  function ParseNat(s: string): Option<nat>
    decreases |s|
  {
    if |s| == 0 || !IsDigit(s[|s| - 1]) then None
    else if |s| == 1 then Some(DigitValue(s[0]))
    else match ParseNat(s[..|s| - 1])
      case None => None
      case Some(p) => Some(p * 10 + DigitValue(s[|s| - 1]))
  }

  /** The value of an optionally '-'-signed string of digits; None for anything else. */
  function ParseInt(s: string): Option<int>
  {
    if |s| > 0 && s[0] == '-' then
      match ParseNat(s[1..])
      case None => None
      case Some(p) => Some(-(p as int))
    else
      match ParseNat(s)
      case None => None
      case Some(p) => Some(p)
  }

  lemma {:induction false} ParseNatFromNat(n: nat)
    ensures ParseNat(FromNat(n)) == Some(n)
    decreases n
  {
    if n >= 10 {
      var s := FromNat(n);
      assert s[..|s| - 1] == FromNat(n / 10);
      ParseNatFromNat(n / 10);
    }
  }

  /** Formatting then parsing gives back every integer. */
  lemma ParseIntFromInt(n: int)
    ensures ParseInt(FromInt(n)) == Some(n)
  {
    var s := FromInt(n);
    if n < 0 {
      assert s[1..] == FromNat(-n);
      ParseNatFromNat(-n);
    } else {
      assert s == FromNat(n);
      assert IsDigit(s[0]);
      ParseNatFromNat(n);
    }
  }

  /** Distinct integers are written differently. */
  lemma FromIntInjective(m: int, n: int)
    requires FromInt(m) == FromInt(n)
    ensures m == n
  {
    ParseIntFromInt(m);
    ParseIntFromInt(n);
  }
}
