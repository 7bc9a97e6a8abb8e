/** Go's `strconv.Atoi` as the handler uses it: the error is discarded, so a
    syntax error reads as 0 and a range error reads as the 64-bit bound of the
    input's sign (Go's `int` is taken to be 64 bits wide). The functions follow
    the standard library's own steps: a fast path for short inputs, and
    otherwise `ParseInt` over `ParseUint`, whose digit loop stops at the first
    non-digit or at the first digit that overflows 64 bits, whichever comes
    first. `ParseDecimal` is an independent reading of the same grammar with an
    unbounded value, and the contract of `AtoiOrZero` ties the two together. */
module Atoi {
  import opened Wrappers

  const Int64Min: int := -0x8000_0000_0000_0000
  const Int64Max: int := 0x7fff_ffff_ffff_ffff
  const MaxUint64: int := 0xffff_ffff_ffff_ffff
  /** `ParseUint`'s cutoff for base 10: an accumulator at or above it
      overflows when multiplied by 10. */
  const UintCutoff: int := MaxUint64 / 10 + 1

  type Int64 = x: int | Int64Min <= x <= Int64Max

  predicate IsDigit(c: char)
  {
    '0' <= c <= '9'
  }

  predicate AllDigits(s: string)
  {
    forall i :: 0 <= i < |s| ==> IsDigit(s[i])
  }

  function DigitOf(c: char): nat
    requires IsDigit(c)
  {
    c as int - '0' as int
  }

  function Pow10(k: nat): nat
  {
    if k == 0 then 1 else 10 * Pow10(k - 1)
  }

  /** The value of a run of decimal digits, most significant first. */
  function DigitsValue(ds: string): nat
    requires AllDigits(ds)
  {
    if |ds| == 0 then 0
    else DigitsValue(ds[..|ds| - 1]) * 10 + DigitOf(ds[|ds| - 1])
  }

  /** The accepted grammar: an optional `+` or `-`, then one or more ASCII
      digits; nothing else (no spaces, no underscores). The value is unbounded. */
  function ParseDecimal(s: string): (r: Option<int>)
    ensures r.Some? ==> |s| > 0
    ensures r.Some? && r.value < 0 ==> s[0] == '-'
  {
    if |s| == 0 then None
    else if s[0] == '+' || s[0] == '-' then
      var digits := s[1..];
      if |digits| == 0 || !AllDigits(digits) then None
      else
        var magnitude: int := DigitsValue(digits);
        Some(if s[0] == '-' then -magnitude else magnitude)
    else if AllDigits(s) then Some(DigitsValue(s))
    else None
  }

  /** The nearest 64-bit integer. */
  function Clamp64(v: int): (r: Int64)
    ensures Int64Min <= v <= Int64Max ==> r == v
    ensures v > Int64Max ==> r == Int64Max
    ensures v < Int64Min ==> r == Int64Min
  {
    if v < Int64Min then Int64Min else if v > Int64Max then Int64Max else v
  }

  /** Outcome of `ParseUint`: a value, a syntax error, or a range error. */
  datatype UintScan = UintOk(value: nat) | UintSyntax | UintRange

  /** `ParseUint`'s loop in base 10 with accumulator `n`. Each character is
      checked to be a digit before the overflow tests for it; once a digit
      overflows, the rest of the text is not looked at. The unbounded test
      `n1 > MaxUint64` stands for Go's wrap-around test `n1 < n`. */
  function ScanUint(s: string, n: nat): (r: UintScan)
    ensures r.UintOk? ==> AllDigits(s)
    ensures r.UintOk? && n <= MaxUint64 ==> r.value <= MaxUint64
    decreases |s|
  {
    if |s| == 0 then UintOk(n)
    else if !IsDigit(s[0]) then UintSyntax
    else if n >= UintCutoff then UintRange
    else
      var n1 := n * 10 + DigitOf(s[0]);
      if n1 > MaxUint64 then UintRange else ScanUint(s[1..], n1)
  }

  function ParseUint(s: string): UintScan
  {
    if |s| == 0 then UintSyntax else ScanUint(s, 0)
  }

  /** `ParseInt`'s final step: a magnitude too large for the sign becomes
      that sign's bound. */
  function ApplySign(neg: bool, un: nat): Int64
    requires un <= MaxUint64
  {
    if !neg && un >= 0x8000_0000_0000_0000 then Int64Max
    else if neg && un > 0x8000_0000_0000_0000 then Int64Min
    else if neg then -(un as int)
    else un
  }

  /** `ParseInt(s, 10, 0)` with its error ignored. A syntax error gives 0; a
      range error from `ParseUint` leaves the magnitude at `MaxUint64`. */
  function ParseIntOrZero(s: string): Int64
  {
    if |s| == 0 then 0
    else
      var neg := s[0] == '-';
      var body := if s[0] == '+' || s[0] == '-' then s[1..] else s;
      match ParseUint(body)
      case UintSyntax => 0
      case UintRange => ApplySign(neg, MaxUint64)
      case UintOk(un) => ApplySign(neg, un)
  }

  /** `Atoi`'s fast path, taken when the text is non-empty and shorter than
      19 bytes: at most 18 digits, accumulated without overflow checks. */
  function FastAtoi(s: string): Int64
    requires 0 < |s| < 19
  {
    var body := if s[0] == '+' || s[0] == '-' then s[1..] else s;
    if |body| == 0 || !AllDigits(body) then 0
    else
      DigitsBound(body);
      Pow10Monotone(|body|, 18);
      Pow10Facts();
      var magnitude: int := DigitsValue(body);
      if s[0] == '-' then -magnitude else magnitude
  }

  /** The number `strconv.Atoi(s)` yields when its error is ignored. Go
      measures the length in bytes and the model in characters; a short text
      of non-ASCII characters that Go sends down the slow path gets the same
      value either way, because both paths agree (`FastPathAgrees`). Text in
      the decimal grammar reads as its value clamped to 64 bits; any other
      text reads as 0 or, when its digits overflow first, as a bound. */
  function AtoiOrZero(s: string): (r: Int64)
    ensures r == ParseIntOrZero(s)
    ensures ParseDecimal(s).Some? ==> r == Clamp64(ParseDecimal(s).value)
    ensures ParseDecimal(s).None? ==> r in {0, Int64Max, Int64Min}
  {
    ParseIntMatchesDecimal(s);
    if 0 < |s| < 19 then
      FastPathAgrees(s);
      FastAtoi(s)
    else ParseIntOrZero(s)
  }

  lemma {:induction false} Pow10Monotone(j: nat, k: nat)
    requires j <= k
    ensures Pow10(j) <= Pow10(k)
  {
    if j < k {
      Pow10Monotone(j, k - 1);
    }
  }

  lemma Pow10Facts()
    ensures Pow10(18) == 1_000_000_000_000_000_000
  {
    assert Pow10(6) == 1_000_000;
    assert Pow10(12) == 1_000_000_000_000;
  }

  /** A run of digits is at least its leading digit's place value. */
  lemma {:induction false} DigitsLeading(ds: string)
    requires AllDigits(ds) && |ds| > 0
    ensures DigitsValue(ds) >= DigitOf(ds[0]) * Pow10(|ds| - 1)
  {
    if |ds| > 1 {
      var init := ds[..|ds| - 1];
      DigitsLeading(init);
      assert init[0] == ds[0];
      assert DigitsValue(ds) >= DigitsValue(init) * 10;
      assert DigitOf(ds[0]) * Pow10(|ds| - 1) == DigitOf(ds[0]) * Pow10(|ds| - 2) * 10;
    }
  }

  lemma {:induction false} DigitsBound(ds: string)
    requires AllDigits(ds)
    ensures DigitsValue(ds) < Pow10(|ds|)
  {
    if |ds| > 0 {
      DigitsBound(ds[..|ds| - 1]);
    }
  }

  /** Left-to-right accumulation with no overflow check. */
  function Horner(n: nat, s: string): nat
    requires AllDigits(s)
    decreases |s|
  {
    if |s| == 0 then n else Horner(n * 10 + DigitOf(s[0]), s[1..])
  }

  lemma {:induction false} HornerAtLeast(n: nat, s: string)
    requires AllDigits(s)
    ensures Horner(n, s) >= n
    decreases |s|
  {
    if |s| > 0 {
      HornerAtLeast(n * 10 + DigitOf(s[0]), s[1..]);
    }
  }

  lemma {:induction false} HornerSnoc(n: nat, s: string)
    requires AllDigits(s) && |s| > 0
    ensures Horner(n, s) == Horner(n, s[..|s| - 1]) * 10 + DigitOf(s[|s| - 1])
    decreases |s|
  {
    if |s| > 1 {
      var n1 := n * 10 + DigitOf(s[0]);
      HornerSnoc(n1, s[1..]);
      assert s[1..][..|s| - 2] == s[..|s| - 1][1..];
    }
  }

  /** Accumulating from the left gives the digits' value. */
  lemma {:induction false} HornerValue(s: string)
    requires AllDigits(s)
    ensures Horner(0, s) == DigitsValue(s)
  {
    if |s| > 0 {
      HornerSnoc(0, s);
      HornerValue(s[..|s| - 1]);
    }
  }

  /** On digits alone, the loop either returns the accumulated value or
      reports a range error, and it reports one exactly when the value does
      not fit in 64 unsigned bits. */
  lemma {:induction false} ScanAllDigits(s: string, n: nat)
    requires AllDigits(s) && n <= MaxUint64
    ensures ScanUint(s, n) ==
              if Horner(n, s) <= MaxUint64 then UintOk(Horner(n, s)) else UintRange
    decreases |s|
  {
    if |s| > 0 {
      var n1 := n * 10 + DigitOf(s[0]);
      HornerAtLeast(n1, s[1..]);
      if n < UintCutoff && n1 <= MaxUint64 {
        ScanAllDigits(s[1..], n1);
      }
    }
  }

  /** The arithmetic of one step of `ScanNoRange`. */
  lemma StepBound(n: nat, d: nat, k: nat)
    requires d <= 9 && k >= 1 && (n + 1) * (10 * k) <= MaxUint64 + 1
    ensures n < UintCutoff && n * 10 + d <= MaxUint64
    ensures (n * 10 + d + 1) * k <= MaxUint64 + 1
  {
    assert (n + 1) * 10 <= (n + 1) * (10 * k);
    assert (n * 10 + d + 1) * k <= (n * 10 + 10) * k;
  }

  /** A short enough text cannot make the loop overflow. */
  lemma {:induction false} ScanNoRange(s: string, n: nat)
    requires (n + 1) * Pow10(|s|) <= MaxUint64 + 1
    ensures !ScanUint(s, n).UintRange?
    decreases |s|
  {
    if |s| > 0 && IsDigit(s[0]) {
      var k := Pow10(|s| - 1);
      Pow10Monotone(0, |s| - 1);
      StepBound(n, DigitOf(s[0]), k);
      ScanNoRange(s[1..], n * 10 + DigitOf(s[0]));
    }
  }

  /** The fast path returns what `ParseInt` would. */
  lemma FastPathAgrees(s: string)
    requires 0 < |s| < 19
    ensures FastAtoi(s) == ParseIntOrZero(s)
  {
    var body := if s[0] == '+' || s[0] == '-' then s[1..] else s;
    if |body| > 0 {
      Pow10Monotone(|body|, 18);
      Pow10Facts();
      if AllDigits(body) {
        DigitsBound(body);
        HornerValue(body);
        ScanAllDigits(body, 0);
      } else {
        ScanNoRange(body, 0);
      }
    }
  }

  /** `ParseInt` agrees with the unbounded reading clamped to 64 bits, and
      yields 0 or a bound on text outside the grammar. */
  lemma ParseIntMatchesDecimal(s: string)
    ensures ParseDecimal(s).Some? ==> ParseIntOrZero(s) == Clamp64(ParseDecimal(s).value)
    ensures ParseDecimal(s).None? ==>
              ParseIntOrZero(s) in {0, Int64Max, Int64Min}
  {
    if |s| > 0 {
      var body := if s[0] == '+' || s[0] == '-' then s[1..] else s;
      if |body| > 0 {
        if AllDigits(body) {
          HornerValue(body);
          ScanAllDigits(body, 0);
        }
      }
    }
  }

  /** Digits that overflow before any junk make a range error, so unsigned
      text reads as the upper bound however it continues. */
  lemma {:induction false} ScanOverflowFirst(ds: string, junk: string, n: nat)
    requires AllDigits(ds) && n <= MaxUint64 && Horner(n, ds) > MaxUint64
    ensures ScanUint(ds + junk, n) == UintRange
    decreases |ds|
  {
    var s := ds + junk;
    assert |ds| > 0;
    var n1 := n * 10 + DigitOf(ds[0]);
    assert s[0] == ds[0];
    if n < UintCutoff && n1 <= MaxUint64 {
      assert s[1..] == ds[1..] + junk;
      ScanOverflowFirst(ds[1..], junk, n1);
    }
  }

  /** A non-digit reached before any overflow makes a syntax error. */
  lemma {:induction false} ScanJunkFirst(ds: string, c: char, rest: string, n: nat)
    requires AllDigits(ds) && !IsDigit(c) && Horner(n, ds) <= MaxUint64
    ensures ScanUint(ds + [c] + rest, n) == UintSyntax
    decreases |ds|
  {
    var s := ds + [c] + rest;
    if |ds| > 0 {
      var n1 := n * 10 + DigitOf(ds[0]);
      HornerAtLeast(n1, ds[1..]);
      assert s[0] == ds[0];
      assert s[1..] == ds[1..] + [c] + rest;
      ScanJunkFirst(ds[1..], c, rest, n1);
    }
  }

  /** Whichever comes first decides: unsigned digits too large for 64 bits
      followed by anything read as `Int64Max`; digits that fit followed by a
      non-digit read as 0. */
  lemma OverflowBeforeJunk(ds: string, c: char, rest: string)
    requires |ds| > 0 && AllDigits(ds) && !IsDigit(c)
    ensures DigitsValue(ds) > MaxUint64 ==> AtoiOrZero(ds + [c] + rest) == Int64Max
    ensures DigitsValue(ds) <= MaxUint64 ==> AtoiOrZero(ds + [c] + rest) == 0
  {
    var s := ds + [c] + rest;
    HornerValue(ds);
    assert s[0] == ds[0];
    assert ds + [c] + rest == ds + ([c] + rest);
    if DigitsValue(ds) > MaxUint64 {
      ScanOverflowFirst(ds, [c] + rest, 0);
      if |s| < 19 {
        DigitsBound(ds);
        Pow10Monotone(|ds|, 18);
        Pow10Facts();
      }
    } else {
      ScanJunkFirst(ds, c, rest, 0);
      if |s| < 19 {
        FastPathAgrees(s);
      }
    }
  }

  /** Twenty nines overflow before the trailing letter is read. */
  lemma OverflowWinsExample()
    ensures AtoiOrZero("99999999999999999999x") == Int64Max
  {
    var ds := "99999999999999999999";
    assert AllDigits(ds);
    assert DigitsValue(ds) > MaxUint64 by {
      DigitsLeading(ds);
      Pow10Facts();
      assert Pow10(19) == 10 * Pow10(18);
    }
    OverflowBeforeJunk(ds, 'x', "");
    assert ds + ['x'] + "" == "99999999999999999999x";
  }

  /** The order index `"1"` of the usual request reads as 1. */
  lemma AtoiOne()
    ensures AtoiOrZero("1") == 1
  {
  }

  /** Decimal rendering of a natural number (`strconv.Itoa` on non-negatives). */
  function FormatNat(n: nat): (r: string)
    ensures |r| > 0 && AllDigits(r)
  {
    var last := ['0' + ((n % 10) as char)];
    if n < 10 then last else FormatNat(n / 10) + last
  }

  /** Decimal rendering of an integer (`strconv.Itoa`). */
  function FormatInt(n: int): string
  {
    if n < 0 then "-" + FormatNat(-n) else FormatNat(n)
  }

  lemma {:induction false} DigitsOfFormatNat(n: nat)
    ensures DigitsValue(FormatNat(n)) == n
  {
    var s := FormatNat(n);
    if n >= 10 {
      DigitsOfFormatNat(n / 10);
      assert s[..|s| - 1] == FormatNat(n / 10);
    }
  }

  /** Parsing reads back exactly the integer that was rendered. */
  lemma ParseFormatRoundTrip(n: int)
    ensures ParseDecimal(FormatInt(n)) == Some(n)
  {
    var s := FormatInt(n);
    if n < 0 {
      DigitsOfFormatNat(-n);
      assert s[1..] == FormatNat(-n);
    } else {
      DigitsOfFormatNat(n);
      assert s[0] != '+' && s[0] != '-' by { assert IsDigit(s[0]); }
    }
  }

  /** Every 64-bit integer survives a rendering followed by `AtoiOrZero`. */
  lemma AtoiRoundTrip(n: Int64)
    ensures AtoiOrZero(FormatInt(n)) == n
  {
    ParseFormatRoundTrip(n);
  }

  /** Missing or non-numeric form values read as 0. */
  lemma AtoiDefaults()
    ensures AtoiOrZero("") == 0
    ensures AtoiOrZero("-") == 0
    ensures AtoiOrZero("1a") == 0
    ensures AtoiOrZero(" 1") == 0
  {
  }
}
