/**
 * Text handling of the OTP flow in server.js: normalising a phone number to
 * its stored form (`'91' + phone.replace(/\D/g, '')`) and printing the
 * one-time code (`String(Math.floor(1000 + Math.random() * 9000))`).
 */
module Phone {

  predicate IsDigit(c: char) {
    '0' <= c <= '9'
  }

  predicate AllDigits(s: string) {
    forall i :: 0 <= i < |s| ==> IsDigit(s[i])
  }

  /** `s.replace(/\D/g, '')`: the ASCII digits of `s`, in order. */
  function DigitsOnly(s: string): (r: string)
    ensures |r| <= |s|
    ensures AllDigits(r)
    ensures AllDigits(s) ==> r == s
    decreases |s|
  {
    if s == [] then []
    else (if IsDigit(s[0]) then [s[0]] else []) + DigitsOnly(s[1..])
  }

  const CountryCode := "91"
  const PhoneDigits := 10

  /** The stored form of a number, shared by `/block` and `/send-otp`: `91`, then the digits of the input. */
  function PhoneKey(raw: string): (r: string)
    ensures AllDigits(r)
    ensures |r| == |CountryCode| + |DigitsOnly(raw)|
    ensures r[..|CountryCode|] == CountryCode && r[|CountryCode|..] == DigitsOnly(raw)
    ensures |DigitsOnly(raw)| == PhoneDigits ==> |r| == 12
  {
    CountryCode + DigitsOnly(raw)
  }

  /** Stripping commutes with concatenation, so separators anywhere are ignored. */
  lemma {:induction false} DigitsOnlyAppend(a: string, b: string)
    ensures DigitsOnly(a + b) == DigitsOnly(a) + DigitsOnly(b)
    decreases |a|
  {
    if a == [] {
      assert a + b == b;
    } else {
      assert (a + b)[0] == a[0] && (a + b)[1..] == a[1..] + b;
      DigitsOnlyAppend(a[1..], b);
    }
  }

  /** Two inputs give the same stored number exactly when their digits agree. */
  lemma PhoneKeyMatches(a: string, b: string)
    ensures PhoneKey(a) == PhoneKey(b) <==> DigitsOnly(a) == DigitsOnly(b)
  {
    if PhoneKey(a) == PhoneKey(b) {
      assert DigitsOnly(a) == PhoneKey(a)[2..];
      assert DigitsOnly(b) == PhoneKey(b)[2..];
    }
  }

  /** Re-normalising a stored number gives it back unchanged. */
  lemma PhoneKeyStable(raw: string)
    ensures DigitsOnly(PhoneKey(raw)) == PhoneKey(raw)
  {
    assert AllDigits(PhoneKey(raw));
  }

  function DigitChar(d: int): (c: char)
    requires 0 <= d <= 9
    ensures IsDigit(c)
  {
    ('0' as int + d) as char
  }

  function DigitValue(c: char): int
    requires IsDigit(c)
  {
    c as int - '0' as int
  }

  /** `String(n)` for a natural number. */
  function DecimalString(n: nat): (r: string)
    ensures |r| >= 1 && AllDigits(r)
    ensures r[0] == '0' ==> n == 0
    decreases n
  {
    if n < 10 then [DigitChar(n)] else DecimalString(n / 10) + [DigitChar(n % 10)]
  }

  /** The value of a decimal numeral. */
  function ParseDecimal(s: string): nat
    requires AllDigits(s)
    decreases |s|
  {
    if s == [] then 0 else 10 * ParseDecimal(s[..|s| - 1]) + DigitValue(s[|s| - 1])
  }

  function Pow10(k: nat): nat {
    if k == 0 then 1 else 10 * Pow10(k - 1)
  }

  /** The printed number reads back as the number. */
  lemma {:induction false} ParseDecimalString(n: nat)
    ensures ParseDecimal(DecimalString(n)) == n
    decreases n
  {
    var r := DecimalString(n);
    if n >= 10 {
      ParseDecimalString(n / 10);
      assert r[..|r| - 1] == DecimalString(n / 10);
    }
  }

  /** Different numbers print differently, and never as a word such as `key`. */
  lemma DecimalStringsDistinct()
    ensures forall m: nat, n: nat ::
              DecimalString(m) == DecimalString(n) ==> m == n
    ensures forall n: nat :: DecimalString(n) != "key"
  {
    forall m: nat, n: nat | DecimalString(m) == DecimalString(n)
      ensures m == n
    {
      ParseDecimalString(m);
      ParseDecimalString(n);
    }
    forall n: nat
      ensures DecimalString(n) != "key"
    {
      assert !IsDigit("key"[0]);
    }
  }

  /** A number with `k` digits prints as `k` characters. */
  lemma {:induction false} DecimalLength(n: nat, k: nat)
    requires 1 <= k && Pow10(k - 1) <= n < Pow10(k)
    ensures |DecimalString(n)| == k
    decreases k
  {
    if k > 1 {
      DecimalLength(n / 10, k - 1);
    }
  }

  const OtpLength := 4

  /** A code `/send-otp` can issue: four digits, the first never `0`. */
  predicate IsOtp(s: string) {
    |s| == OtpLength && AllDigits(s) && s[0] != '0'
  }

  /** `Math.floor(1000 + random * 9000)` for a draw `random` in [0, 1). */
  function OtpNumber(random: real): (n: int)
    requires 0.0 <= random < 1.0
    ensures 1000 <= n <= 9999
  {
    (1000.0 + random * 9000.0).Floor
  }

  /** The code `/send-otp` stores and shows. */
  function OtpCode(random: real): (otp: string)
    requires 0.0 <= random < 1.0
    ensures IsOtp(otp)
    ensures ParseDecimal(otp) == OtpNumber(random)
  {
    var n := OtpNumber(random);
    assert Pow10(3) == 1000 && Pow10(4) == 10000 by {
      assert Pow10(1) == 10 && Pow10(2) == 100;
    }
    DecimalLength(n, 4);
    ParseDecimalString(n);
    DecimalString(n)
  }

  /** Every number from 1000 to 9999 is drawn by some `random`, so exactly 9000 codes occur. */
  lemma OtpNumberReachable(n: int)
    requires 1000 <= n <= 9999
    ensures var random := (n - 1000) as real / 9000.0;
            0.0 <= random < 1.0 && OtpNumber(random) == n
  {
    var random := (n - 1000) as real / 9000.0;
    assert random * 9000.0 == (n - 1000) as real;
  }

  /** A code with a leading zero, such as `0123`, is never issued. */
  lemma NoLeadingZeroCode(random: real, entered: string)
    requires 0.0 <= random < 1.0
    requires |entered| > 0 && entered[0] == '0'
    ensures entered != OtpCode(random)
  {
  }
}
