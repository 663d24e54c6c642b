/**
  Decimal notation: the digit strings behind Go's `strconv.Atoi` (used to
  read the retention period) and behind the zero-padded fields of
  `time.Time.Format` (used to stamp the archive name).
*/
module Decimal {
  import opened Wrappers

  /** The range of Go's 64-bit `int`, which bounds what `strconv.Atoi` accepts. */
  const MinInt64: int := -0x8000_0000_0000_0000
  const MaxInt64: int := 0x7FFF_FFFF_FFFF_FFFF

  predicate IsDigit(c: char) {
    '0' <= c <= '9'
  }

  predicate AllDigits(s: string) {
    forall i :: 0 <= i < |s| ==> IsDigit(s[i])
  }

  function DigitChar(d: nat): (c: char)
    requires d < 10
    ensures IsDigit(c) && c as int - '0' as int == d
  {
    ('0' as int + d) as char
  }

  function Pow10(k: nat): (p: nat)
    ensures p >= 1
  {
    if k == 0 then 1 else 10 * Pow10(k - 1)
  }

  /** The number a string of decimal digits denotes; leading zeros are allowed. */
  function ValueOf(s: string): nat
    requires AllDigits(s)
  {
    if s == [] then 0 else ValueOf(s[..|s| - 1]) * 10 + (s[|s| - 1] as int - '0' as int)
  }

  /** The shortest decimal notation of `n`, as `strconv.Itoa` writes a non-negative number. */
  function ShowNat(n: nat): string {
    if n < 10 then [DigitChar(n)] else ShowNat(n / 10) + [DigitChar(n % 10)]
  }

  /** `ShowNat` writes at least one digit, denotes `n`, and uses no more digits than needed. */
  lemma {:induction false} ShowNatFacts(n: nat)
    ensures 1 <= |ShowNat(n)| && AllDigits(ShowNat(n)) && ValueOf(ShowNat(n)) == n
    ensures n < Pow10(|ShowNat(n)|) && (|ShowNat(n)| > 1 ==> Pow10(|ShowNat(n)| - 1) <= n)
  {
    if n >= 10 {
      var init := ShowNat(n / 10);
      var r := ShowNat(n);
      ShowNatFacts(n / 10);
      assert r[..|r| - 1] == init;
    }
  }

  function Zeros(k: nat): (r: string)
    ensures |r| == k && AllDigits(r)
    ensures forall i :: 0 <= i < k ==> r[i] == '0'
  {
    if k == 0 then [] else Zeros(k - 1) + ['0']
  }

  lemma {:induction false} ZerosValue(k: nat)
    ensures ValueOf(Zeros(k)) == 0
  {
    if k > 0 {
      assert Zeros(k)[..k - 1] == Zeros(k - 1);
      ZerosValue(k - 1);
    }
  }

  /** Leading zeros do not change the value of a digit string. */
  lemma {:induction false} LeadingZeros(k: nat, s: string)
    requires AllDigits(s)
    ensures AllDigits(Zeros(k) + s) && ValueOf(Zeros(k) + s) == ValueOf(s)
  {
    var z := Zeros(k) + s;
    assert forall i :: 0 <= i < |z| ==> IsDigit(z[i]) by {
      forall i | 0 <= i < |z| ensures IsDigit(z[i]) {
        if i >= k { assert z[i] == s[i - k]; }
      }
    }
    if s == [] {
      assert z == Zeros(k);
      ZerosValue(k);
    } else {
      var init := s[..|s| - 1];
      assert z[..|z| - 1] == Zeros(k) + init;
      LeadingZeros(k, init);
    }
  }

  /**
    `n` written with at least `width` digits, zero-padded on the left: the
    numeric fields of Go's reference layout ("2006", "01", "02", "15", "04", "05").
  */
  function Padded(n: nat, width: nat): string {
    var d := ShowNat(n);
    Zeros(if |d| < width then width - |d| else 0) + d
  }

  /** Padding keeps the value and gives exactly `width` digits to a number that fits in them. */
  lemma PaddedFacts(n: nat, width: nat)
    ensures AllDigits(Padded(n, width)) && ValueOf(Padded(n, width)) == n
    ensures |Padded(n, width)| == if |ShowNat(n)| < width then width else |ShowNat(n)|
    ensures 1 <= width && n < Pow10(width) ==> |Padded(n, width)| == width
  {
    var d := ShowNat(n);
    ShowNatFacts(n);
    var k := if |d| < width then width - |d| else 0;
    LeadingZeros(k, d);
    if 1 <= width && n < Pow10(width) && |d| > width {
      Pow10Monotone(width, |d| - 1);
    }
  }

  lemma {:induction false} Pow10Monotone(i: nat, j: nat)
    requires i <= j
    ensures Pow10(i) <= Pow10(j)
  {
    if i < j { Pow10Monotone(i, j - 1); }
  }

  /**
    A 64-bit integer in decimal, with '-' for a negative one: the inverse
    by which `ParseInt` is specified.
  */
  function FormatInt(n: int): (r: string)
    ensures MinInt64 <= n <= MaxInt64 ==> ParseInt(r) == Some(n)
  {
    ShowNatFacts(if n < 0 then -n else n);
    if n < 0 then "-" + ShowNat(-n) else ShowNat(n)
  }

  /** `s` without one leading sign character. */
  function Unsigned(s: string): (u: string)
    ensures s != [] && (s[0] == '-' || s[0] == '+') ==> s == [s[0]] + u
    ensures s == [] || (s[0] != '-' && s[0] != '+') ==> u == s
  {
    if s != [] && (s[0] == '-' || s[0] == '+') then s[1..] else s
  }

  /** The value of a sign and a run of digits: negative after '-'. */
  function SignedValue(s: string): int
    requires AllDigits(Unsigned(s))
  {
    if s != [] && s[0] == '-' then 0 - ValueOf(Unsigned(s)) as int else ValueOf(Unsigned(s))
  }

  /**
    `strconv.Atoi`: an optional sign followed by one or more decimal digits,
    whose value fits in 64 bits; anything else (the empty string, spaces,
    underscores, an overflow) is an error.
  */
  function ParseInt(s: string): (r: Option<int>)
    ensures r.Some? <==>
      (Unsigned(s) != [] && AllDigits(Unsigned(s)) && MinInt64 <= SignedValue(s) <= MaxInt64)
    ensures r.Some? ==> AllDigits(Unsigned(s)) && r.value == SignedValue(s)
  {
    var digits := Unsigned(s);
    if digits == [] || !AllDigits(digits) then None
    else
      var v: int := if s[0] == '-' then 0 - ValueOf(digits) as int else ValueOf(digits);
      if MinInt64 <= v <= MaxInt64 then Some(v) else None
  }
}
