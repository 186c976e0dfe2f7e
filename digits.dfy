/** Decimal digits: the `/\d+/` match that reads a phase number out of a
    label, and the number-to-text conversion of template literals. */
module Digits {
  import opened Wrappers

  predicate IsDigit(c: char) {
    '0' <= c <= '9'
  }

  predicate AllDigits(s: string) {
    forall i :: 0 <= i < |s| ==> IsDigit(s[i])
  }

  predicate NoDigits(s: string) {
    forall i :: 0 <= i < |s| ==> !IsDigit(s[i])
  }

  function DigitValue(c: char): nat
    requires IsDigit(c)
  {
    c as int - '0' as int
  }

  function DigitChar(d: nat): (c: char)
    requires d < 10
    ensures IsDigit(c) && DigitValue(c) == d
  {
    ('0' as int + d) as char
  }

  /** The value of a run of decimal digits (`+"007"` is 7). */
  function DigitsValue(s: string): nat
    requires AllDigits(s)
  {
    if s == [] then 0 else DigitsValue(s[..|s| - 1]) * 10 + DigitValue(s[|s| - 1])
  }

  /** The text JavaScript produces for a non-negative integer. */
  function Decimal(n: nat): (s: string)
    ensures |s| > 0 && AllDigits(s)
    ensures n > 0 ==> s[0] != '0'
  {
    if n < 10 then [DigitChar(n)] else Decimal(n / 10) + [DigitChar(n % 10)]
  }

  lemma {:induction false} DecimalRoundTrip(n: nat)
    ensures DigitsValue(Decimal(n)) == n
  {
    if n >= 10 {
      DecimalRoundTrip(n / 10);
      var s := Decimal(n);
      assert s[..|s| - 1] == Decimal(n / 10);
    }
  }

  /** The longest prefix of `s` made of digits. */
  function LeadingDigits(s: string): (r: string)
    ensures |r| <= |s| && r == s[..|r|] && AllDigits(r)
    ensures |r| == |s| || !IsDigit(s[|r|])
  {
    if s == [] || !IsDigit(s[0]) then [] else [s[0]] + LeadingDigits(s[1..])
  }

  /** `run` occurs at offset `k` of `s`, nothing before it is a digit and it cannot be extended. */
  predicate MaximalRunAt(s: string, k: nat, run: string) {
    k + |run| <= |s| && NoDigits(s[..k]) && s[k..k + |run|] == run &&
    (k + |run| == |s| || !IsDigit(s[k + |run|]))
  }

  /** The first maximal run of digits in `s`, as `String.prototype.match(/\d+/)` finds it. */
  function FirstDigitRun(s: string): (r: Option<string>)
    ensures r.Some? ==> AllDigits(r.value)
  {
    if s == [] then None
    else if IsDigit(s[0]) then Some(LeadingDigits(s))
    else FirstDigitRun(s[1..])
  }

  /** There is no run exactly when `s` has no digit; a run found is non-empty,
      all digits, preceded only by non-digits and not extensible. */
  lemma {:induction false} FirstDigitRunSpec(s: string)
    ensures FirstDigitRun(s).None? <==> NoDigits(s)
    ensures FirstDigitRun(s).Some? ==>
      |FirstDigitRun(s).value| > 0 && AllDigits(FirstDigitRun(s).value) &&
      exists k: nat :: MaximalRunAt(s, k, FirstDigitRun(s).value)
  {
    if s != [] {
      if IsDigit(s[0]) {
        assert MaximalRunAt(s, 0, LeadingDigits(s));
      } else {
        FirstDigitRunSpec(s[1..]);
        var rest := FirstDigitRun(s[1..]);
        if rest.Some? {
          var k: nat :| MaximalRunAt(s[1..], k, rest.value);
          assert s[..k + 1] == [s[0]] + s[1..][..k];
          assert s[k + 1..k + 1 + |rest.value|] == rest.value;
          assert MaximalRunAt(s, k + 1, rest.value);
        } else {
          assert forall i :: 0 < i < |s| ==> s[i] == s[1..][i - 1];
        }
      }
    }
  }

  /** A digit run embedded between digit-free text and a non-digit is the run `match` finds. */
  lemma {:induction false} FirstDigitRunOf(prefix: string, digits: string, suffix: string)
    requires NoDigits(prefix) && |digits| > 0 && AllDigits(digits)
    requires suffix == [] || !IsDigit(suffix[0])
    ensures FirstDigitRun(prefix + digits + suffix) == Some(digits)
  {
    var s := prefix + digits + suffix;
    if prefix == [] {
      LeadingDigitsOf(digits, suffix);
      assert s == digits + suffix;
    } else {
      assert s[1..] == prefix[1..] + digits + suffix;
      FirstDigitRunOf(prefix[1..], digits, suffix);
    }
  }

  lemma {:induction false} LeadingDigitsOf(digits: string, suffix: string)
    requires AllDigits(digits)
    requires suffix == [] || !IsDigit(suffix[0])
    ensures LeadingDigits(digits + suffix) == digits
  {
    if digits != [] {
      assert (digits + suffix)[1..] == digits[1..] + suffix;
      LeadingDigitsOf(digits[1..], suffix);
    } else {
      assert digits + suffix == suffix;
    }
  }

  /** A number printed in front of a non-digit reads back as that number. */
  lemma LeadingNumber(n: nat, suffix: string)
    requires suffix == [] || !IsDigit(suffix[0])
    ensures AllDigits(LeadingDigits(Decimal(n) + suffix))
    ensures DigitsValue(LeadingDigits(Decimal(n) + suffix)) == n
  {
    LeadingDigitsOf(Decimal(n), suffix);
    DecimalRoundTrip(n);
  }
}
