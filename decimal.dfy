/**
 * Decimal text for non-negative integers, as JavaScript's `String(n)` writes
 * it, and `String.prototype.padStart`, with the digit value that reads a
 * string back.
 */
module Decimal {

  predicate IsDigit(c: char)
  {
    '0' <= c <= '9'
  }

  predicate AllDigits(s: string)
  {
    forall i :: 0 <= i < |s| ==> IsDigit(s[i])
  }

  function DigitValue(c: char): (d: nat)
    requires IsDigit(c)
    ensures d < 10
  {
    c as int - '0' as int
  }

  function DigitChar(d: nat): (c: char)
    requires d < 10
    ensures IsDigit(c) && DigitValue(c) == d
  {
    ('0' as int + d) as char
  }

  /** The number a string of decimal digits denotes; leading zeros are allowed. */
  function Value(s: string): nat
    requires AllDigits(s)
  {
    if s == [] then 0 else Value(s[..|s| - 1]) * 10 + DigitValue(s[|s| - 1])
  }

  /**
   * `String(n)` for a non-negative integer: its decimal digits without a
   * leading zero, which read back as `n`; one digit exactly when `n < 10`.
   */
  function NatToString(n: nat): (s: string)
    ensures AllDigits(s) && Value(s) == n
    ensures |s| >= 1 && (|s| > 1 ==> s[0] != '0')
    ensures |s| == 1 <==> n < 10
  {
    if n < 10 then
      var s := [DigitChar(n)];
      assert s[..0] == [];
      s
    else
      var prefix := NatToString(n / 10);
      var s := prefix + [DigitChar(n % 10)];
      assert s[..|s| - 1] == prefix;
      s
  }

  /**
   * `s.padStart(targetLength, fill)`: `s` itself when already long enough,
   * otherwise `s` preceded by as many `fill` characters as make up the length.
   */
  function PadStart(s: string, targetLength: nat, fill: char): (r: string)
    ensures |r| == if |s| >= targetLength then |s| else targetLength
    ensures r[|r| - |s|..] == s
    ensures forall i :: 0 <= i < |r| - |s| ==> r[i] == fill
    decreases targetLength - |s|
  {
    if |s| >= targetLength then s else PadStart([fill] + s, targetLength, fill)
  }

  /** A leading zero does not change the value of a digit string. */
  lemma {:induction false} LeadingZeroKeepsValue(s: string)
    requires AllDigits(s)
    ensures AllDigits(['0'] + s) && Value(['0'] + s) == Value(s)
  {
    var z := ['0'] + s;
    assert forall i :: 0 <= i < |z| ==> IsDigit(z[i]) by {
      forall i | 0 <= i < |z| ensures IsDigit(z[i]) {
        if i > 0 { assert z[i] == s[i - 1]; }
      }
    }
    if s != [] {
      var init := s[..|s| - 1];
      assert AllDigits(init) by {
        forall i | 0 <= i < |init| ensures IsDigit(init[i]) { assert init[i] == s[i]; }
      }
      LeadingZeroKeepsValue(init);
      assert z[..|z| - 1] == ['0'] + init;
      assert z[|z| - 1] == s[|s| - 1];
    } else {
      assert z[..|z| - 1] == [];
    }
  }

  /** Padding a digit string with zeros keeps its value. */
  lemma {:induction false} ZeroPaddingKeepsValue(s: string, targetLength: nat)
    requires AllDigits(s)
    ensures AllDigits(PadStart(s, targetLength, '0'))
    ensures Value(PadStart(s, targetLength, '0')) == Value(s)
    decreases targetLength - |s|
  {
    if |s| < targetLength {
      LeadingZeroKeepsValue(s);
      ZeroPaddingKeepsValue(['0'] + s, targetLength);
    }
  }
}
