/** Decimal numbers: reading back what str() and zero padding print. */
module Numbers {
  import opened Basics

  predicate IsDigit(c: char) { '0' <= c <= '9' }

  predicate AllDigits(s: string) {
    forall i :: 0 <= i < |s| ==> IsDigit(s[i])
  }

  function ValueOf(digits: string): nat
    requires AllDigits(digits)
  {
    if digits == "" then 0 else 10 * ValueOf(digits[..|digits| - 1]) + (digits[|digits| - 1] as nat - '0' as nat)
  }

  /** The length of the longest run of digits at the front. */
  function DigitRun(s: string): (n: nat)
    ensures n <= |s| && AllDigits(s[..n]) && (n < |s| ==> !IsDigit(s[n]))
  {
    if s == "" || !IsDigit(s[0]) then 0
    else
      var n := DigitRun(s[1..]);
      assert s[..n + 1] == [s[0]] + s[1..][..n];
      1 + n
  }

  /** A number at the front, and what follows it. */
  function ReadNumber(s: string): Option<(nat, string)> {
    var n := DigitRun(s);
    if n == 0 then None else Some((ValueOf(s[..n]), s[n..]))
  }

  lemma {:induction false} DecimalValue(n: nat)
    ensures AllDigits(Decimal(n)) && ValueOf(Decimal(n)) == n
  {
    if n < 10 {
      assert Decimal(n)[..0] == "";
    } else {
      DecimalValue(n / 10);
      assert Decimal(n)[..|Decimal(n)| - 1] == Decimal(n / 10);
    }
  }

  /** str() of different numbers differs. */
  lemma DecimalInjective(m: nat, n: nat)
    requires Decimal(m) == Decimal(n)
    ensures m == n
  {
    DecimalValue(m);
    DecimalValue(n);
  }

  predicate NoDigitAhead(s: string) { s == "" || !IsDigit(s[0]) }

  lemma {:induction false} RunOfDigits(digits: string, rest: string)
    requires AllDigits(digits) && NoDigitAhead(rest)
    ensures DigitRun(digits + rest) == |digits|
  {
    if digits == "" {
      assert digits + rest == rest;
    } else {
      RunOfDigits(digits[1..], rest);
      assert (digits + rest)[1..] == digits[1..] + rest;
    }
  }

  lemma ReadsDecimal(n: nat, rest: string)
    requires NoDigitAhead(rest)
    ensures ReadNumber(Decimal(n) + rest) == Some((n, rest))
  {
    var s := Decimal(n) + rest;
    DecimalValue(n);
    RunOfDigits(Decimal(n), rest);
    assert s[..|Decimal(n)|] == Decimal(n) && s[|Decimal(n)|..] == rest;
  }

  function Pow10(k: nat): (p: nat)
    ensures p > 0
  {
    if k == 0 then 1 else 10 * Pow10(k - 1)
  }

  lemma {:induction false} DecimalLength(n: nat, k: nat)
    requires k > 0 && n < Pow10(k)
    ensures |Decimal(n)| <= k
  {
    if n >= 10 {
      DecimalLength(n / 10, k - 1);
    }
  }

  /** str.zfill(width) */
  function ZeroFilled(digits: string, width: nat): (s: string)
    ensures |s| == if |digits| < width then width else |digits|
    decreases width - |digits|
  {
    if |digits| >= width then digits else ZeroFilled("0" + digits, width)
  }

  /** f"{n:010d}" */
  function Padded(n: nat): string {
    ZeroFilled(Decimal(n), 10)
  }

  lemma {:induction false} LeadingZero(digits: string)
    requires AllDigits(digits)
    ensures AllDigits("0" + digits) && ValueOf("0" + digits) == ValueOf(digits)
  {
    var s := "0" + digits;
    if digits == "" {
      assert s[..|s| - 1] == "";
    } else {
      LeadingZero(digits[..|digits| - 1]);
      assert s[..|s| - 1] == "0" + digits[..|digits| - 1];
    }
  }

  lemma {:induction false} FillingKeepsValue(digits: string, width: nat)
    requires AllDigits(digits)
    ensures AllDigits(ZeroFilled(digits, width)) && ValueOf(ZeroFilled(digits, width)) == ValueOf(digits)
    decreases width - |digits|
  {
    if |digits| < width {
      LeadingZero(digits);
      FillingKeepsValue("0" + digits, width);
    }
  }

  lemma TenDigits()
    ensures Pow10(10) == 10_000_000_000
  {
    assert Pow10(3) == 1000;
    assert Pow10(6) == 1000 * Pow10(3);
    assert Pow10(9) == 1000 * Pow10(6);
  }

  lemma {:induction false} DecimalLong(n: nat, k: nat)
    requires n >= Pow10(k)
    ensures |Decimal(n)| > k
  {
    if k > 0 {
      DecimalLong(n / 10, k - 1);
    }
  }

  /** Ten digits hold every number below 10^10, and no other. */
  lemma PaddedReadsBack(n: nat)
    ensures |Padded(n)| >= 10 && AllDigits(Padded(n)) && ValueOf(Padded(n)) == n
    ensures n < 10_000_000_000 <==> |Padded(n)| == 10
  {
    DecimalValue(n);
    FillingKeepsValue(Decimal(n), 10);
    TenDigits();
    if n < 10_000_000_000 {
      DecimalLength(n, 10);
    } else {
      DecimalLong(n, 10);
    }
  }
}
