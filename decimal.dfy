/**
  Decimal numerals: reading a run of ASCII digits as a number (the `int()`
  of the original runtime on such text), printing a number as digits (`str()`
  and the zero-padded `{n:02}` / `{n:03}` formats), and the round trips that
  connect the two.
*/
module Decimal {
  import opened Common

  predicate IsDigit(c: char)
  {
    '0' <= c <= '9'
  }

  predicate AllDigits(s: string)
  {
    forall i {:trigger IsDigit(s[i])} :: 0 <= i < |s| ==> IsDigit(s[i])
  }

  function DigitValue(c: char): (d: nat)
    requires IsDigit(c)
    ensures d < 10
  {
    (c as int) - ('0' as int)
  }

  function DigitChar(d: nat): (c: char)
    requires d < 10
    ensures IsDigit(c) && DigitValue(c) == d
  {
    ('0' as int + d) as char
  }

  /** The number a digit string denotes; leading zeros are allowed. */
  function ValueOf(s: string): nat
    requires AllDigits(s)
  {
    if |s| == 0 then 0 else ValueOf(s[..|s| - 1]) * 10 + DigitValue(s[|s| - 1])
  }

  /** `str(n)` for a non-negative number: no leading zeros. */
  function NatToString(n: nat): (r: string)
    ensures |r| >= 1 && AllDigits(r)
    ensures |r| > 1 ==> r[0] != '0'
  {
    if n < 10 then [DigitChar(n)] else NatToString(n / 10) + [DigitChar(n % 10)]
  }

  /** `str(i)`: a minus sign in front of the digits of a negative number. */
  function IntToString(i: int): (r: string)
    ensures |r| >= 1
    ensures i >= 0 <==> IsDigit(r[0])
    ensures i >= 0 ==> AllDigits(r)
    ensures i < 0 ==> r[0] == '-' && AllDigits(r[1..])
  {
    if i < 0 then "-" + NatToString(-i) else NatToString(i)
  }

  function Zeros(k: nat): (r: string)
    ensures |r| == k && AllDigits(r)
    ensures forall i :: 0 <= i < k ==> r[i] == '0'
  {
    if k == 0 then [] else "0" + Zeros(k - 1)
  }

  /** `f"{n:0w}"` for a non-negative number: the digits of `n`, padded on
      the left with zeros up to `width` characters. */
  function ZeroPad(n: nat, width: nat): (r: string)
    ensures AllDigits(r)
    ensures |r| == if |NatToString(n)| >= width then |NatToString(n)| else width
  {
    var d := NatToString(n);
    if |d| >= width then d else Zeros(width - |d|) + d
  }

  /** `f"{i:0w}"` for any integer: a negative number keeps its sign in front
      and is padded to one character less. */
  function ZeroPadInt(i: int, width: nat): (r: string)
    ensures |r| >= width
    ensures i >= 0 ==> r == ZeroPad(i, width)
    ensures i < 0 ==> |r| >= 1 && r[0] == '-' && AllDigits(r[1..])
  {
    if i < 0 then "-" + ZeroPad(-i, if width > 0 then width - 1 else 0) else ZeroPad(i, width)
  }

  // ---------------------------------------------------------------------
  // Round trips

  lemma {:induction false} ValueOfAppend(s: string, c: char)
    requires AllDigits(s) && IsDigit(c)
    ensures AllDigits(s + [c]) && ValueOf(s + [c]) == ValueOf(s) * 10 + DigitValue(c)
  {
    assert (s + [c])[..|s|] == s;
  }

  /** Reading back what `str()` printed gives the number. */
  lemma {:induction false} ValueOfNatToString(n: nat)
    ensures ValueOf(NatToString(n)) == n
  {
    if n >= 10 {
      ValueOfNatToString(n / 10);
      ValueOfAppend(NatToString(n / 10), DigitChar(n % 10));
    }
  }

  /** Leading zeros do not change the value. */
  lemma {:induction false} ValueOfZerosPrefix(k: nat, s: string)
    requires AllDigits(s)
    ensures AllDigits(Zeros(k) + s) && ValueOf(Zeros(k) + s) == ValueOf(s)
    decreases |s|
  {
    if |s| == 0 {
      ValueOfZeros(k);
      assert Zeros(k) + s == Zeros(k);
    } else {
      var init := s[..|s| - 1];
      ValueOfZerosPrefix(k, init);
      assert Zeros(k) + s == (Zeros(k) + init) + [s[|s| - 1]];
      ValueOfAppend(Zeros(k) + init, s[|s| - 1]);
      ValueOfAppend(init, s[|s| - 1]);
      assert init + [s[|s| - 1]] == s;
    }
  }

  lemma {:induction false} ValueOfZeros(k: nat)
    ensures ValueOf(Zeros(k)) == 0
  {
    if k > 0 {
      ValueOfZeros(k - 1);
      assert Zeros(k) == Zeros(k - 1) + "0";
      ValueOfAppend(Zeros(k - 1), '0');
    }
  }

  lemma {:induction false} ZerosSplit(k: nat)
    requires k > 0
    ensures Zeros(k) == Zeros(k - 1) + "0"
  {
    if k > 1 {
      ZerosSplit(k - 1);
    }
  }

  /** Reading back a zero-padded number gives the number. */
  lemma {:induction false} ValueOfZeroPad(n: nat, width: nat)
    ensures ValueOf(ZeroPad(n, width)) == n
  {
    var d := NatToString(n);
    ValueOfNatToString(n);
    if |d| < width {
      ValueOfZerosPrefix(width - |d|, d);
      PaddedIsZerosThenDigits(n, width);
    }
  }

  lemma {:induction false} PaddedIsZerosThenDigits(n: nat, width: nat)
    requires |NatToString(n)| < width
    ensures ZeroPad(n, width) == Zeros(width - |NatToString(n)|) + NatToString(n)
  {
  }

  /** Different numbers print differently. */
  lemma {:induction false} NatToStringInjective(m: nat, n: nat)
    requires NatToString(m) == NatToString(n)
    ensures m == n
  {
    ValueOfNatToString(m);
    ValueOfNatToString(n);
  }

  lemma {:induction false} IntToStringInjective(i: int, j: int)
    requires IntToString(i) == IntToString(j)
    ensures i == j
  {
    if i < 0 && j < 0 {
      assert IntToString(i)[1..] == NatToString(-i);
      assert IntToString(j)[1..] == NatToString(-j);
      NatToStringInjective(-i, -j);
    } else if i >= 0 && j >= 0 {
      NatToStringInjective(i, j);
    }
  }

  /** A number below 10^width fits the padded width exactly. */
  lemma {:induction false} NatToStringLength(n: nat, width: nat)
    requires 1 <= width && n < Pow10(width)
    ensures |NatToString(n)| <= width
  {
    if n >= 10 {
      assert width > 1;
      NatToStringLength(n / 10, width - 1);
    }
  }

  function Pow10(k: nat): (p: nat)
    ensures p >= 1
  {
    if k == 0 then 1 else 10 * Pow10(k - 1)
  }

  /** A digit string of length k denotes a number below 10^k. */
  lemma {:induction false} ValueOfBound(s: string)
    requires AllDigits(s)
    ensures ValueOf(s) < Pow10(|s|)
  {
    if |s| > 0 {
      ValueOfBound(s[..|s| - 1]);
    }
  }

  lemma {:induction false} ZeroPadExactWidth(n: nat, width: nat)
    requires 1 <= width && n < Pow10(width)
    ensures |ZeroPad(n, width)| == width
  {
    NatToStringLength(n, width);
  }

  // ---------------------------------------------------------------------
  // `int()` on text

  /** `int(s)` on the text it accepts here: optional surrounding whitespace,
      an optional sign, then at least one ASCII digit. */
  function ParseInt(s: string): (r: Option<int>)
    ensures r.Some? && AllDigits(Trim(s)) ==> r.value >= 0
  {
    var t := Trim(s);
    if |t| > 0 && AllDigits(t) then Some(ValueOf(t))
    else if |t| > 1 && (t[0] == '-' || t[0] == '+') && AllDigits(t[1..]) then
      var v: int := ValueOf(t[1..]);
      Some(if t[0] == '-' then -v else v)
    else None
  }

  lemma {:induction false} ParseIntOfDigits(s: string)
    requires |s| > 0 && AllDigits(s)
    ensures ParseInt(s) == Some(ValueOf(s))
  {
    assert IsDigit(s[0]) && IsDigit(s[|s| - 1]);
    TrimOfTrimmed(s);
  }
}
