/** The parts of Python's str built-ins the add-ons rely on: str() of an
    integer and str.zfill. */
module PyStr {

  /** The decimal digit character of d. */
  function DigitChar(d: nat): (c: char)
    requires d < 10
    ensures '0' <= c <= '9' && c as int - '0' as int == d
  {
    ('0' as int + d) as char
  }

  predicate IsDigit(c: char)
  {
    '0' <= c <= '9'
  }

  function DigitValue(c: char): nat
    requires IsDigit(c)
  {
    c as int - '0' as int
  }

  /** str(n) for n >= 0: the shortest decimal spelling, without leading zeros. */
  function NatDigits(n: nat): (r: string)
    ensures 1 <= |r| && forall k :: 0 <= k < |r| ==> IsDigit(r[k])
    ensures |r| > 1 ==> r[0] != '0'
  {
    if n < 10 then [DigitChar(n)] else NatDigits(n / 10) + [DigitChar(n % 10)]
  }

  /** The number a string of decimal digits spells; leading zeros add nothing. */
  function DecimalValue(s: string): nat
    requires forall k :: 0 <= k < |s| ==> IsDigit(s[k])
  {
    if s == [] then 0 else DecimalValue(s[..|s| - 1]) * 10 + DigitValue(s[|s| - 1])
  }

  /** str(n) for any integer. */
  function IntString(n: int): string
  {
    if n < 0 then "-" + NatDigits(-n) else NatDigits(n)
  }

  function Zeros(k: nat): (r: string)
    ensures |r| == k && forall j :: 0 <= j < k ==> r[j] == '0'
  {
    if k == 0 then "" else Zeros(k - 1) + "0"
  }

  /** str.zfill(width): pad with zeros on the left, after a leading sign, up to
      the width; a string that is already that long is unchanged. */
  function ZFill(s: string, width: nat): (r: string)
    ensures |s| >= width ==> r == s
    ensures |r| == if |s| >= width then |s| else width
  {
    if |s| >= width then s
    else if |s| > 0 && (s[0] == '+' || s[0] == '-') then [s[0]] + Zeros(width - |s|) + s[1..]
    else Zeros(width - |s|) + s
  }

  lemma {:induction false} NatDigitsValue(n: nat)
    ensures DecimalValue(NatDigits(n)) == n
  {
    var r := NatDigits(n);
    if n >= 10 {
      NatDigitsValue(n / 10);
      assert r[..|r| - 1] == NatDigits(n / 10);
    }
  }

  lemma {:induction false} LeadingZerosValue(k: nat, s: string)
    requires forall j :: 0 <= j < |s| ==> IsDigit(s[j])
    ensures forall j :: 0 <= j < |Zeros(k) + s| ==> IsDigit((Zeros(k) + s)[j])
    ensures DecimalValue(Zeros(k) + s) == DecimalValue(s)
    decreases |s|
  {
    var z := Zeros(k) + s;
    assert forall j :: 0 <= j < |z| ==> IsDigit(z[j]);
    if s == [] {
      ZerosValue(k);
      assert z == Zeros(k);
    } else {
      assert z[..|z| - 1] == Zeros(k) + s[..|s| - 1];
      LeadingZerosValue(k, s[..|s| - 1]);
    }
  }

  lemma {:induction false} ZerosValue(k: nat)
    ensures DecimalValue(Zeros(k)) == 0
  {
    if k > 0 {
      assert Zeros(k)[..k - 1] == Zeros(k - 1);
      ZerosValue(k - 1);
    }
  }

  /** zfill on a string of digits keeps it a string of digits, at least the
      width long, spelling the same number. */
  lemma ZFillDigits(s: string, width: nat)
    requires |s| >= 1 && forall j :: 0 <= j < |s| ==> IsDigit(s[j])
    ensures var r := ZFill(s, width);
      |r| >= width && (forall j :: 0 <= j < |r| ==> IsDigit(r[j])) && DecimalValue(r) == DecimalValue(s)
  {
    if |s| < width {
      assert !(s[0] == '+' || s[0] == '-') by { assert IsDigit(s[0]); }
      assert ZFill(s, width) == Zeros(width - |s|) + s;
      LeadingZerosValue(width - |s|, s);
    }
  }

  /** zfill keeps a minus sign in front: the digits after it are padded to one
      less than the width. */
  lemma ZFillNegative(s: string, width: nat)
    requires width >= 1 && |s| >= 1 && forall j :: 0 <= j < |s| ==> IsDigit(s[j])
    ensures ZFill(['-'] + s, width) == ['-'] + ZFill(s, width - 1)
  {
    var t := ['-'] + s;
    assert t[0] == '-' && t[1..] == s;
    if |t| < width {
      assert !(s[0] == '+' || s[0] == '-') by { assert IsDigit(s[0]); }
      assert ZFill(s, width - 1) == Zeros(width - |t|) + s;
      assert ZFill(t, width) == [t[0]] + Zeros(width - |t|) + t[1..];
    }
  }

  /** Different non-negative numbers have different decimal spellings. */
  lemma NatDigitsInjective(a: nat, b: nat)
    requires NatDigits(a) == NatDigits(b)
    ensures a == b
  {
    NatDigitsValue(a);
    NatDigitsValue(b);
  }
}
