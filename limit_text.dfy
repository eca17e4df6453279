/** The character scan shared by `SpeedLimitSettings::parse_limit`
    (src/models.rs) and `parse_speed_limit` (src/ui/widgets/speed_limit_popup.rs):
    digits and '.' go to the number until the first letter has been seen,
    letters go to the unit, everything else is skipped.  The number text is
    then read as Rust reads an `f64` made only of digits and dots. */
module LimitText {
  import opened Wrappers
  import opened Text

  const KIB: nat := 1024
  const MIB: nat := 1024 * 1024
  const GIB: nat := 1024 * 1024 * 1024

  datatype Scan = Scan(num: string, unit: string, inUnit: bool)

  /** The scanner's state after reading `s`, left to right. */
  function ScanSpec(s: string): (st: Scan)
    ensures forall i :: 0 <= i < |st.num| ==> IsDigit(st.num[i]) || st.num[i] == '.'
    ensures forall i :: 0 <= i < |st.unit| ==> IsAlphabetic(st.unit[i])
    ensures st.inUnit <==> st.unit != []
    decreases |s|
  {
    if s == [] then Scan([], [], false)
    else
      var st := ScanSpec(s[..|s| - 1]);
      var c := s[|s| - 1];
      if IsDigit(c) || c == '.' then
        (if !st.inUnit then st.(num := st.num + [c]) else st)
      else if IsAlphabetic(c) then
        Scan(st.num, st.unit + [c], true)
      else st
  }

  /** The scanning loop of both parsers. */
  method ScanNumberAndUnit(input: string) returns (num: string, unit: string)
    ensures num == ScanSpec(input).num && unit == ScanSpec(input).unit
  {
    num, unit := [], [];
    var inUnit := false;
    for i := 0 to |input|
      invariant Scan(num, unit, inUnit) == ScanSpec(input[..i])
    {
      assert input[..i + 1][..i] == input[..i];
      var c := input[i];
      if IsDigit(c) || c == '.' {
        if !inUnit {
          num := num + [c];
        }
      } else if IsAlphabetic(c) {
        inUnit := true;
        unit := unit + [c];
      }
    }
    assert input[..|input|] == input;
  }

  /** Ten to the power `k`: the denominator of `k` fractional digits. */
  function Pow10(k: nat): (p: nat)
    ensures p > 0
  {
    if k == 0 then 1 else 10 * Pow10(k - 1)
  }

  /** The digits before the first dot and the text after it. */
  function DecimalParts(num: string): (p: (string, string))
    requires forall i :: 0 <= i < |num| ==> IsDigit(num[i]) || num[i] == '.'
    ensures IsDigits(p.0) && ('.' !in p.1 ==> IsDigits(p.1))
    ensures IsDigits(num) ==> p == (num, [])
    ensures (forall i :: 0 <= i < |num| ==> !IsDigit(num[i])) ==> p.0 == [] && (p.1 == [] || '.' in p.1)
  {
    var whole := BeforeFirst(num, '.');
    var frac := if |whole| < |num| then num[|whole| + 1..] else [];
    assert forall i :: 0 <= i < |whole| ==> whole[i] == num[i];
    assert forall i :: 0 <= i < |frac| ==> frac[i] == num[|whole| + 1 + i];
    assert IsDigits(num) ==> whole == num by {
      if IsDigits(num) {
        assert forall i :: 0 <= i < |num| ==> num[i] != '.';
      }
    }
    assert (forall i :: 0 <= i < |num| ==> !IsDigit(num[i])) ==>
             whole == [] && (frac == [] || frac[0] == '.') by {
      if whole != [] { assert whole[0] == num[0]; }
      if |frac| > 0 { assert frac[0] == num[|whole| + 1]; }
    }
    (whole, frac)
  }

  /** `str::parse::<f64>` on text made only of digits and dots: at most one dot
      and at least one digit ("5", "5.", ".5"); the value is exact, without
      the rounding of a binary float. */
  function DecimalValue(num: string): (r: Option<real>)
    requires forall i :: 0 <= i < |num| ==> IsDigit(num[i]) || num[i] == '.'
    ensures r.Some? ==> r.value >= 0.0
    ensures IsDigits(num) && num != [] ==> r == Some(DigitsValue(num) as real)
    ensures (forall i :: 0 <= i < |num| ==> !IsDigit(num[i])) ==> r.None?
    ensures (exists i, j :: 0 <= i < j < |num| && num[i] == '.' && num[j] == '.') ==> r.None?
  {
    var (whole, frac) := DecimalParts(num);
    SecondDotInFraction(num);
    if '.' in frac || |whole| + |frac| == 0 then None
    else
      var f := DigitsValue(frac) as real / Pow10(|frac|) as real;
      assert f >= 0.0;
      Some(DigitsValue(whole) as real + f)
  }

  /** A second dot ends up in the text after the first one. */
  lemma SecondDotInFraction(num: string)
    requires forall i :: 0 <= i < |num| ==> IsDigit(num[i]) || num[i] == '.'
    ensures (exists i, j :: 0 <= i < j < |num| && num[i] == '.' && num[j] == '.') ==> '.' in DecimalParts(num).1
  {
    var (whole, frac) := DecimalParts(num);
    if i, j :| 0 <= i < j < |num| && num[i] == '.' && num[j] == '.' {
      assert |whole| <= i by { assert '.' !in whole; assert whole == num[..|whole|]; }
      assert frac == num[|whole| + 1..];
      assert frac[j - |whole| - 1] == '.';
    }
  }

  /** Digits, a dot and digits are made of digits and dots. */
  lemma DigitsDotDigits(whole: string, frac: string)
    requires IsDigits(whole) && IsDigits(frac)
    ensures forall i :: 0 <= i < |whole + "." + frac| ==> IsDigit((whole + "." + frac)[i]) || (whole + "." + frac)[i] == '.'
  {
    var num := whole + "." + frac;
    forall i | 0 <= i < |num|
      ensures IsDigit(num[i]) || num[i] == '.'
    {
      if i < |whole| {
        assert num[i] == whole[i];
      } else if i > |whole| {
        assert num[i] == frac[i - |whole| - 1];
      }
    }
  }

  /** Digits, a dot and digits split at the dot. */
  lemma PartsAtDot(whole: string, frac: string)
    requires IsDigits(whole) && IsDigits(frac)
    ensures forall i :: 0 <= i < |whole + "." + frac| ==> IsDigit((whole + "." + frac)[i]) || (whole + "." + frac)[i] == '.'
    ensures DecimalParts(whole + "." + frac) == (whole, frac)
  {
    DigitsDotDigits(whole, frac);
    var num := whole + "." + frac;
    assert '.' !in whole by { assert forall i :: 0 <= i < |whole| ==> IsDigit(whole[i]); }
    assert num == whole + ("." + frac);
    BeforeFirstAt(whole, "." + frac, '.');
    assert num[|whole| + 1..] == frac;
  }

  /** The value of digits, a dot and digits is the whole part plus the
      fraction, the fractional digits counting tenths, hundredths and so on. */
  lemma DecimalValueOfParts(whole: string, frac: string)
    requires IsDigits(whole) && IsDigits(frac) && |whole| + |frac| > 0
    ensures forall i :: 0 <= i < |whole + "." + frac| ==> IsDigit((whole + "." + frac)[i]) || (whole + "." + frac)[i] == '.'
    ensures DecimalValue(whole + "." + frac) == Some(DigitsValue(whole) as real + DigitsValue(frac) as real / Pow10(|frac|) as real)
  {
    PartsAtDot(whole, frac);
    assert '.' !in frac by { assert forall i :: 0 <= i < |frac| ==> IsDigit(frac[i]); }
    ValueOfParts(whole + "." + frac, whole, frac);
  }

  /** The value of a number whose parts are known. */
  lemma ValueOfParts(num: string, whole: string, frac: string)
    requires forall i :: 0 <= i < |num| ==> IsDigit(num[i]) || num[i] == '.'
    requires IsDigits(whole) && IsDigits(frac) && |whole| + |frac| > 0 && '.' !in frac
    requires DecimalParts(num) == (whole, frac)
    ensures DecimalValue(num) == Some(DigitsValue(whole) as real + DigitsValue(frac) as real / Pow10(|frac|) as real)
  {
  }

  /** "1.5" is one and a half. */
  lemma DecimalExample()
    ensures DecimalValue("1.5") == Some(1.5)
  {
    DecimalValueOfParts("1", "5");
    assert "1" + "." + "5" == "1.5";
    assert DigitsValue("1") == 1 by { assert "1"[..0] == []; }
    assert DigitsValue("5") == 5 by { assert "5"[..0] == []; }
    assert Pow10(1) == 10;
  }

  /** `num * multiplier as f64`, exact. */
  function Scale(x: real, m: nat): (y: real)
    requires x >= 0.0
    ensures y >= 0.0
  {
    assert x * (m as real) >= 0.0 by {
      if m > 0 { assert x * (m as real) >= x * 1.0; }
    }
    x * m as real
  }

  /** `f64 as u64`: truncation toward zero, saturating at the largest u64. */
  function TruncateToU64(x: real): (v: nat)
    requires x >= 0.0
    ensures v <= U64_MAX
    ensures x < U64_MAX as real ==> v as real <= x < v as real + 1.0
    ensures x >= U64_MAX as real ==> v == U64_MAX
  {
    if x.Floor >= U64_MAX then U64_MAX else x.Floor
  }

  /** A character the scan skips: neither part of a number nor a letter. */
  predicate IsSkipped(c: char) {
    !IsDigit(c) && c != '.' && !IsAlphabetic(c)
  }

  /** Characters that are neither digits, dots nor letters ("5 mb/s" has a
      space and a slash) leave the scan as it was. */
  lemma {:induction false} ScanSkipsSeparators(p: string, sep: string)
    requires forall i :: 0 <= i < |sep| ==> IsSkipped(sep[i])
    ensures ScanSpec(p + sep) == ScanSpec(p)
    decreases |sep|
  {
    if sep != [] {
      var sep' := sep[..|sep| - 1];
      assert (p + sep)[..|p + sep| - 1] == p + sep';
      assert (p + sep)[|p + sep| - 1] == sep[|sep| - 1];
      ScanSkipsSeparators(p, sep');
    } else {
      assert p + sep == p;
    }
  }

  /** Once a letter follows a scan that has not reached the unit, the number
      is final, whatever comes after the letter, and the unit starts with
      that letter. */
  lemma {:induction false} ScanUnitAfter(p: string, u: string)
    requires !ScanSpec(p).inUnit
    requires |u| > 0 && IsAlphabetic(u[0])
    ensures ScanSpec(p + u).num == ScanSpec(p).num
    ensures |ScanSpec(p + u).unit| > 0 && ScanSpec(p + u).unit[0] == u[0]
    decreases |u|
  {
    if |u| == 1 {
      assert (p + u)[..|p + u| - 1] == p;
      assert (p + u)[|p + u| - 1] == u[0];
    } else {
      var u' := u[..|u| - 1];
      assert (p + u)[..|p + u| - 1] == p + u';
      ScanUnitAfter(p, u');
    }
  }

  /** The scan of a digit run alone puts all of it in the number. */
  lemma {:induction false} ScanDigits(ds: string)
    requires IsDigits(ds)
    ensures ScanSpec(ds) == Scan(ds, [], false)
    decreases |ds|
  {
    if ds != [] {
      assert ds[..|ds| - 1] + [ds[|ds| - 1]] == ds;
      ScanDigits(ds[..|ds| - 1]);
    }
  }

  /** Every digit the scan keeps comes from the input. */
  lemma {:induction false} ScanNumFromInput(s: string)
    ensures forall i :: 0 <= i < |ScanSpec(s).num| ==> ScanSpec(s).num[i] in s
    decreases |s|
  {
    if s != [] {
      ScanNumFromInput(s[..|s| - 1]);
      forall i | 0 <= i < |ScanSpec(s).num| ensures ScanSpec(s).num[i] in s {
        var p := ScanSpec(s[..|s| - 1]).num;
        if i < |p| {
          assert p[i] in s[..|s| - 1];
        }
      }
    }
  }
}
