/** Decimal text of integers as Go prints and parses it: fmt's %d verb,
    strconv.Atoi, and the zero-padded fields of time.Format. */
module Decimal {
  import opened Base

  const Int64Min: int := -0x8000_0000_0000_0000
  const Int64Max: int := 0x7FFF_FFFF_FFFF_FFFF

  predicate IsDigit(c: char)
  {
    '0' <= c <= '9'
  }

  predicate AllDigits(s: string)
  {
    forall i :: 0 <= i < |s| ==> IsDigit(s[i])
  }

  function DigitChar(d: nat): (c: char)
    requires d < 10
    ensures IsDigit(c)
  {
    (('0' as int) + d) as char
  }

  function DigitValue(c: char): (d: nat)
    requires IsDigit(c)
    ensures d < 10
  {
    (c as int) - ('0' as int)
  }

  /** The shortest decimal text of `n`: "0", or digits with no leading zero. */
  function NatText(n: nat): (s: string)
    ensures |s| > 0 && AllDigits(s)
    ensures n >= 10 ==> s[0] != '0'
  {
    if n < 10 then [DigitChar(n)] else NatText(n / 10) + [DigitChar(n % 10)]
  }

  /** The value of a string of decimal digits. */
  function DigitsValue(s: string): nat
    requires AllDigits(s)
  {
    if s == [] then 0 else DigitsValue(s[..|s| - 1]) * 10 + DigitValue(s[|s| - 1])
  }

  /** fmt.Sprintf("%d", i) for an integer: a minus sign for negatives, no
      grouping, no leading zeros. */
  function IntText(i: int): (s: string)
    ensures |s| >= 1 && (s[0] == '-' <==> i < 0)
  {
    if i < 0 then "-" + NatText(-i) else NatText(i)
  }

  /** strconv.Atoi on a 64-bit platform: an optional sign, then one or more
      decimal digits; anything else, or a value outside int64, is an error. */
  function Atoi(s: string): (r: Option<int>)
    ensures r.Some? ==> Int64Min <= r.value <= Int64Max
  {
    var negative := |s| > 0 && s[0] == '-';
    var digits := if |s| > 0 && (s[0] == '-' || s[0] == '+') then s[1..] else s;
    if digits == [] || !AllDigits(digits) then None
    else
      var magnitude: int := DigitsValue(digits);
      var v := if negative then -magnitude else magnitude;
      if Int64Min <= v <= Int64Max then Some(v) else None
  }

  /** `s` left-padded with '0' to at least `width` characters, as time.Format
      pads the fields of a layout. */
  function ZeroPad(s: string, width: nat): (r: string)
    ensures |r| == if |s| < width then width else |s|
    ensures AllDigits(s) ==> AllDigits(r)
    decreases width - |s|
  {
    if |s| < width then ZeroPad("0" + s, width) else s
  }

  /** 10 to the power k. */
  function Ten(k: nat): (p: nat)
    ensures p >= 1
  {
    if k == 0 then 1 else 10 * Ten(k - 1)
  }

  /** A number below 10^k takes at most k digits. */
  lemma {:induction false} NatTextWidth(n: nat, k: nat)
    requires 1 <= k && n < Ten(k)
    ensures |NatText(n)| <= k
  {
    if n >= 10 {
      assert k >= 2;
      NatTextWidth(n / 10, k - 1);
    }
  }

  /** The digits of NatText read back give the number. */
  lemma {:induction false} NatTextValue(n: nat)
    ensures DigitsValue(NatText(n)) == n
  {
    if n >= 10 {
      var s := NatText(n);
      assert s[..|s| - 1] == NatText(n / 10);
      NatTextValue(n / 10);
    }
  }

  /** A leading zero does not change the value of a digit string. */
  lemma {:induction false} LeadingZeroValue(s: string)
    requires AllDigits(s)
    ensures AllDigits("0" + s) && DigitsValue("0" + s) == DigitsValue(s)
  {
    if s != [] {
      var t := "0" + s;
      assert t[..|t| - 1] == "0" + s[..|s| - 1];
      LeadingZeroValue(s[..|s| - 1]);
    }
  }

  /** Zero padding keeps the value of a digit string. */
  lemma {:induction false} ZeroPadValue(s: string, width: nat)
    requires AllDigits(s)
    ensures DigitsValue(ZeroPad(s, width)) == DigitsValue(s)
    decreases width - |s|
  {
    if |s| < width {
      LeadingZeroValue(s);
      ZeroPadValue("0" + s, width);
    }
  }

  /** Round trip: strconv.Atoi reads back what %d prints, for every int64. */
  lemma AtoiIntText(i: int)
    requires Int64Min <= i <= Int64Max
    ensures Atoi(IntText(i)) == Some(i)
  {
    var s := IntText(i);
    if i < 0 {
      assert s[0] == '-' && s[1..] == NatText(-i) by {
        assert s == "-" + NatText(-i);
      }
      AtoiDigits(s, true, -i);
    } else {
      assert s == NatText(i);
      AtoiDigits(s, false, i);
    }
  }

  /** Atoi of an optional minus sign followed by the text of n. */
  lemma AtoiDigits(s: string, negative: bool, n: nat)
    requires negative ==> |s| > 0 && s[0] == '-' && s[1..] == NatText(n)
    requires !negative ==> s == NatText(n)
    requires Int64Min <= (if negative then -(n as int) else n as int) <= Int64Max
    ensures Atoi(s) == Some(if negative then -(n as int) else n as int)
  {
    NatTextValue(n);
    if !negative {
      assert IsDigit(s[0]);
    }
  }
}
