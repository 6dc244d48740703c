/**
 The integer path of src/utilities.cpp (isInt) and src/cast.cpp (lexical_cast<long>): the first reads a
 text in base 10 within the range of a 32-bit int, the second reads it in base 0 into a 64-bit long.
 */
module Integers {
  import opened Wrappers

  const INT_MIN: int := -0x8000_0000
  const INT_MAX: int := 0x7fff_ffff
  const LONG_MIN: int := -0x8000_0000_0000_0000
  const LONG_MAX: int := 0x7fff_ffff_ffff_ffff

  // ---- Numerals ----

  function DigitOf(c: char): (d: Option<nat>)
    ensures d.Some? ==> d.value < 36
  {
    if '0' <= c <= '9' then Some(c as int - '0' as int)
    else if 'a' <= c <= 'z' then Some(c as int - 'a' as int + 10)
    else if 'A' <= c <= 'Z' then Some(c as int - 'A' as int + 10)
    else None
  }

  predicate IsDigit(c: char, base: nat) {
    DigitOf(c).Some? && DigitOf(c).value < base
  }

  predicate IsNumeral(s: string, base: nat) {
    forall i | 0 <= i < |s| :: IsDigit(s[i], base)
  }

  function Value(ds: string, base: nat): nat
    requires IsNumeral(ds, base)
  {
    if ds == "" then 0
    else
      assert IsDigit(ds[|ds| - 1], base);
      Value(ds[..|ds| - 1], base) * base + DigitOf(ds[|ds| - 1]).value
  }

  /** The longest prefix made of digits of the base. */
  function NumeralPrefix(s: string, base: nat): (ds: string)
    ensures ds <= s && IsNumeral(ds, base)
    ensures |ds| < |s| ==> !IsDigit(s[|ds|], base)
  {
    if s == "" || !IsDigit(s[0], base) then ""
    else [s[0]] + NumeralPrefix(s[1..], base)
  }

  function StripZeros(ds: string): (r: string)
    ensures r == "" || r[0] != '0'
    ensures |r| <= |ds| && ds[|ds| - |r|..] == r
  {
    if ds == "" || ds[0] != '0' then ds else StripZeros(ds[1..])
  }

  // ---- Reading ----

  function IsNegative(s: string): bool {
    s != "" && s[0] == '-'
  }

  /** The text after an optional sign. */
  function Unsigned(s: string): string {
    if s != "" && (s[0] == '-' || s[0] == '+') then s[1..] else s
  }

  function Signed(negative: bool, n: nat): int {
    if negative then 0 - n else n
  }

  /** The decimal reading of a sign and digits. */
  function DecimalReading(s: string): int
    requires IsNumeral(Unsigned(s), 10)
  {
    Signed(IsNegative(s), Value(Unsigned(s), 10))
  }

  /** isInt: a stream extraction into an int takes the whole text and does not fail. */
  predicate IsInt(s: string) {
    && Unsigned(s) != ""
    && IsNumeral(Unsigned(s), 10)
    && INT_MIN <= DecimalReading(s) <= INT_MAX
  }

  function SkipSpaces(s: string): string {
    if s != "" && (s[0] == ' ' || 9 <= s[0] as int <= 13) then SkipSpaces(s[1..]) else s
  }

  function Clamp(n: int): int {
    if n < LONG_MIN then LONG_MIN else if n > LONG_MAX then LONG_MAX else n
  }

  predicate HasHexPrefix(s: string) {
    |s| > 2 && s[0] == '0' && (s[1] == 'x' || s[1] == 'X') && IsDigit(s[2], 16)
  }

  /** A prefix 0x makes the base 16, any other leading zero 8, and it is 10 else. */
  function Magnitude(digits: string): nat {
    if HasHexPrefix(digits) then Value(NumeralPrefix(digits[2..], 16), 16)
    else if digits != "" && digits[0] == '0' then Value(NumeralPrefix(digits, 8), 8)
    else Value(NumeralPrefix(digits, 10), 10)
  }

  /** std::strtol with base 0. */
  function ReadBaseZero(s: string): int {
    var text := SkipSpaces(s);
    Clamp(Signed(IsNegative(text), Magnitude(Unsigned(text))))
  }

  // ---- Printing ----

  function DigitChar(d: nat): (c: char)
    requires d < 10
    ensures DigitOf(c) == Some(d)
  {
    ('0' as int + d) as char
  }

  function PrintNat(n: nat): (ds: string)
    ensures ds != ""
  {
    if n < 10 then [DigitChar(n)] else PrintNat(n / 10) + [DigitChar(n % 10)]
  }

  /** The decimal text of a JSON integer. */
  function PrintInt(n: int): string {
    if n < 0 then "-" + PrintNat(-n) else PrintNat(n)
  }

  // ---- Base-0 reading against decimal reading ----

  lemma {:induction false} NumeralPart(ds: string, i: nat, base: nat)
    requires IsNumeral(ds, base) && i <= |ds|
    ensures IsNumeral(ds[..i], base) && IsNumeral(ds[i..], base)
  {
  }

  lemma {:induction false} ValueOfLeadingZero(ds: string, base: nat)
    requires IsNumeral(ds, base) && base > 0
    ensures IsNumeral("0" + ds, base) && Value("0" + ds, base) == Value(ds, base)
  {
    var longer := "0" + ds;
    assert IsDigit('0', base);
    if ds == "" {
      assert longer[..0] == "";
      assert Value(longer, base) == Value("", base) * base + 0;
    } else {
      ValueOfLeadingZero(ds[..|ds| - 1], base);
      assert longer[..|longer| - 1] == "0" + ds[..|ds| - 1];
    }
  }

  /** Leading zeros change no value, in any base, also when only a prefix is read. */
  lemma {:induction false} ValueOfStripped(ds: string, base: nat)
    requires base > 0
    ensures Value(NumeralPrefix(ds, base), base) == Value(NumeralPrefix(StripZeros(ds), base), base)
  {
    if ds == "" || ds[0] != '0' {
    } else {
      ValueOfStripped(ds[1..], base);
      ValueOfLeadingZero(NumeralPrefix(ds[1..], base), base);
      assert IsDigit('0', base);
    }
  }

  lemma {:induction false} WholeNumeral(ds: string, base: nat)
    requires IsNumeral(ds, base)
    ensures NumeralPrefix(ds, base) == ds
  {
  }

  /** Reading octal digits in base 8 never gives more than in base 10, and less once there are two. */
  lemma {:induction false} OctalBelowDecimal(ds: string)
    requires IsNumeral(ds, 8)
    ensures IsNumeral(ds, 10) && Value(ds, 8) <= Value(ds, 10)
    ensures |ds| >= 1 && ds[0] != '0' ==> Value(ds, 10) >= 1
    ensures |ds| >= 2 && ds[0] != '0' ==> Value(ds, 8) < Value(ds, 10)
  {
    assert forall i | 0 <= i < |ds| :: IsDigit(ds[i], 8);
    if ds == "" {
    } else {
      OctalBelowDecimal(ds[..|ds| - 1]);
    }
  }

  /** A shorter numeral without a leading zero reads lower. */
  lemma {:induction false} ShorterIsLess(ds: string, i: nat)
    requires IsNumeral(ds, 10) && i <= |ds|
    ensures IsNumeral(ds[..i], 10) && Value(ds[..i], 10) <= Value(ds, 10)
    ensures ds != "" && ds[0] != '0' ==> Value(ds, 10) >= 1
    ensures i < |ds| && ds[0] != '0' ==> Value(ds[..i], 10) < Value(ds, 10)
    decreases |ds|
  {
    if ds == "" {
    } else {
      var n := |ds| - 1;
      assert IsDigit(ds[0], 10);
      if i < |ds| {
        ShorterIsLess(ds[..n], i);
        assert ds[..n][..i] == ds[..i];
      } else {
        ShorterIsLess(ds[..n], n);
        assert ds[..i] == ds && ds[..n][..n] == ds[..n];
      }
    }
  }

  lemma {:induction false} OneDigit(c: char)
    requires IsDigit(c, 10)
    ensures Value([c], 10) == DigitOf(c).value
    ensures c < '8' ==> IsNumeral([c], 8) && Value([c], 8) == DigitOf(c).value
    ensures c >= '8' ==> NumeralPrefix([c], 8) == "" && DigitOf(c).value > 0
  {
    assert [c][..0] == "";
  }

  /** Base 8 reads digits without a leading zero as base 10 does exactly when there is at most one, below 8. */
  lemma {:induction false} OctalAgreesExactly(ds: string)
    requires IsNumeral(ds, 10) && (ds == "" || ds[0] != '0')
    ensures Value(NumeralPrefix(ds, 8), 8) <= Value(ds, 10)
    ensures Value(NumeralPrefix(ds, 8), 8) == Value(ds, 10) <==> ds == "" || (|ds| == 1 && ds[0] < '8')
  {
    var octal := NumeralPrefix(ds, 8);
    OctalBelowDecimal(octal);
    ShorterIsLess(ds, |octal|);
    assert ds[..|octal|] == octal;
    if |ds| == 1 {
      assert ds == [ds[0]];
      OneDigit(ds[0]);
      if ds[0] < '8' {
        WholeNumeral(ds, 8);
      }
    }
  }

  /**
   The stored long is the decimal reading of an accepted text exactly when its digits have no leading
   zero, or only zeros, or a single digit below 8 after the zeros.
   */
  lemma {:induction false} StoredIntegerExact(s: string)
    requires IsInt(s)
    ensures ReadBaseZero(s) == DecimalReading(s) <==>
              var digits := Unsigned(s);
              digits[0] != '0' || StripZeros(digits) == ""
              || (|StripZeros(digits)| == 1 && StripZeros(digits)[0] < '8')
  {
    ReadsMagnitude(s);
    var digits := Unsigned(s);
    MagnitudeOf(digits);
    if digits[0] == '0' {
      LeadingZeroReading(digits);
    }
  }

  /** Two texts that isInt accepts and that are stored as another integer. */
  lemma {:induction false} MisreadTexts()
    ensures IsInt("010") && DecimalReading("010") == 10 && ReadBaseZero("010") == 8
    ensures IsInt("08") && DecimalReading("08") == 8 && ReadBaseZero("08") == 0
  {
    TwoDigits('1', '0', 10);
    TwoDigits('1', '0', 8);
    ValueOfLeadingZero("10", 10);
    ValueOfLeadingZero("10", 8);
    assert "0" + "10" == "010";
    WholeNumeral("010", 8);
    ReadsMagnitude("010");
    TwoDigits('0', '8', 10);
    OneDigit('8');
    ReadsMagnitude("08");
    assert NumeralPrefix("08", 8) == "0";
  }

  lemma {:induction false} TwoDigits(a: char, b: char, base: nat)
    requires IsDigit(a, base) && IsDigit(b, base)
    ensures IsNumeral([a, b], base) && Value([a, b], base) == DigitOf(a).value * base + DigitOf(b).value
  {
    var both := [a, b];
    assert both[..1] == [a] && [a][..0] == [];
    assert Value([a], base) == DigitOf(a).value;
  }

  lemma {:induction false} NoSpaces(s: string)
    requires IsInt(s)
    ensures SkipSpaces(s) == s
  {
    assert IsDigit(Unsigned(s)[0], 10);
  }

  /** An accepted text has no spaces, and nothing in it reads as high as the limits of a long. */
  lemma {:induction false} ReadsMagnitude(s: string)
    requires IsInt(s)
    ensures ReadBaseZero(s) == Signed(IsNegative(s), Magnitude(Unsigned(s)))
    ensures ReadBaseZero(s) == DecimalReading(s) <==> Magnitude(Unsigned(s)) == Value(Unsigned(s), 10)
  {
    assert ReadBaseZero(s) == Clamp(Signed(IsNegative(s), Magnitude(Unsigned(s)))) by {
      NoSpaces(s);
    }
    assert Magnitude(Unsigned(s)) <= Value(Unsigned(s), 10) by {
      MagnitudeOf(Unsigned(s));
      LeadingZeroReading(Unsigned(s));
    }
  }

  /** Decimal digits have no hexadecimal prefix. */
  lemma {:induction false} MagnitudeOf(digits: string)
    requires IsNumeral(digits, 10) && digits != ""
    ensures Magnitude(digits) == if digits[0] == '0' then Value(NumeralPrefix(digits, 8), 8) else Value(digits, 10)
  {
    assert |digits| > 1 ==> IsDigit(digits[1], 10);
    assert !HasHexPrefix(digits);
    WholeNumeral(digits, 10);
  }

  lemma {:induction false} LeadingZeroReading(digits: string)
    requires IsNumeral(digits, 10)
    ensures Value(NumeralPrefix(digits, 8), 8) <= Value(digits, 10)
    ensures Value(NumeralPrefix(digits, 8), 8) == Value(digits, 10) <==>
              var stripped := StripZeros(digits);
              stripped == "" || (|stripped| == 1 && stripped[0] < '8')
  {
    var stripped := StripZeros(digits);
    NumeralPart(digits, |digits| - |stripped|, 10);
    ValueOfStripped(digits, 8);
    ValueOfStripped(digits, 10);
    WholeNumeral(digits, 10);
    WholeNumeral(stripped, 10);
    OctalAgreesExactly(stripped);
  }

  // ---- Printed integers read back ----

  lemma {:induction false} PrintedNat(n: nat)
    ensures IsNumeral(PrintNat(n), 10) && Value(PrintNat(n), 10) == n
    ensures PrintNat(n)[0] == '0' <==> n == 0
    ensures n == 0 ==> PrintNat(n) == "0"
  {
    var ds := PrintNat(n);
    if n < 10 {
    } else {
      PrintedNat(n / 10);
    }
    assert IsDigit(ds[|ds| - 1], 10);
    assert ds[..|ds| - 1] == if n < 10 then "" else PrintNat(n / 10);
  }

  // ---- The texts isInt accepts ----

  function Zeros(n: nat): string {
    seq(n, _ => '0')
  }

  lemma {:induction false} PrintedStep(n: nat, d: nat)
    requires n > 0 && d < 10
    ensures PrintNat(n * 10 + d) == PrintNat(n) + [DigitChar(d)]
  {
  }

  /** A numeral without a leading zero is the printed text of its value. */
  lemma {:induction false} NumeralIsPrinted(ds: string)
    requires IsNumeral(ds, 10) && |ds| > 0 && (ds[0] != '0' || |ds| == 1)
    ensures PrintNat(Value(ds, 10)) == ds
  {
    var n := |ds| - 1;
    var front := ds[..n];
    assert IsDigit(ds[n], 10) && IsDigit(ds[0], 10);
    var last := DigitOf(ds[n]).value;
    assert DigitChar(last) == ds[n];
    if n == 0 {
      assert ds == [ds[0]];
      OneDigit(ds[0]);
    } else {
      NumeralIsPrinted(front);
      ShorterIsLess(front, n);
      PrintedStep(Value(front, 10), last);
      assert ds == front + [ds[n]];
    }
  }

  lemma {:induction false} ZerosInFront(z: nat, ds: string)
    requires IsNumeral(ds, 10)
    ensures IsNumeral(Zeros(z) + ds, 10) && Value(Zeros(z) + ds, 10) == Value(ds, 10)
  {
    if z == 0 {
      assert Zeros(0) + ds == ds;
    } else {
      ZerosInFront(z - 1, ds);
      ValueOfLeadingZero(Zeros(z - 1) + ds, 10);
      assert Zeros(z) + ds == "0" + (Zeros(z - 1) + ds);
    }
  }

  lemma {:induction false} OnlyZerosStripped(ds: string)
    ensures forall i | 0 <= i < |ds| - |StripZeros(ds)| :: ds[i] == '0'
  {
    if ds == [] || ds[0] != '0' {
    } else {
      OnlyZerosStripped(ds[1..]);
    }
  }

  /** Any digits are zeros followed by a printed number. */
  lemma {:induction false} DigitsArePadded(ds: string) returns (z: nat)
    requires IsNumeral(ds, 10) && |ds| > 0
    ensures ds == Zeros(z) + PrintNat(Value(ds, 10))
  {
    var stripped := StripZeros(ds);
    OnlyZerosStripped(ds);
    z := if stripped == [] then |ds| - 1 else |ds| - |stripped|;
    assert ds[..z] == Zeros(z);
    assert ds == Zeros(z) + ds[z..];
    NumeralPart(ds, z, 10);
    ZerosInFront(z, ds[z..]);
    NumeralIsPrinted(ds[z..]);
  }

  /** A sign or none, some zeros and the decimal text of a number. */
  ghost predicate IsPadded(s: string, sign: string, z: nat, n: nat) {
    && sign in {"", "+", "-"}
    && s == sign + (Zeros(z) + PrintNat(n))
    && n <= if sign == "-" then 0x8000_0000 else 0x7fff_ffff
  }

  lemma {:induction false} AcceptedIsPadded(s: string) returns (sign: string, z: nat, n: nat)
    requires IsInt(s)
    ensures IsPadded(s, sign, z, n)
  {
    var digits := Unsigned(s);
    n := Value(digits, 10);
    z := DigitsArePadded(digits);
    sign := SignOf(s);
  }

  lemma {:induction false} SignOf(s: string) returns (sign: string)
    requires |Unsigned(s)| > 0
    ensures sign in {"", "+", "-"} && s == sign + Unsigned(s) && (IsNegative(s) <==> sign == "-")
  {
    var n := |s| - |Unsigned(s)|;
    sign := s[..n];
    assert n == 1 ==> sign == [s[0]];
  }

  lemma {:induction false} SignedDigits(s: string, sign: string, digits: string)
    requires IsNumeral(digits, 10) && digits != "" && s == sign + digits
    requires sign in {"", "+", "-"}
    ensures Unsigned(s) == digits && IsNegative(s) == (sign == "-")
  {
    assert IsDigit(digits[0], 10);
    if sign == [] {
      assert s == digits;
    } else {
      assert s[0] == sign[0] && s[1..] == digits;
    }
  }

  lemma {:induction false} PaddedIsAccepted(s: string, sign: string, z: nat, n: nat)
    requires IsPadded(s, sign, z, n)
    ensures IsInt(s)
  {
    var digits := Zeros(z) + PrintNat(n);
    assert IsNumeral(digits, 10) && Value(digits, 10) == n by {
      PrintedNat(n);
      ZerosInFront(z, PrintNat(n));
    }
    assert s == sign + digits;
    SignedDigits(s, sign, digits);
  }

  /** isInt accepts exactly the padded decimal texts of the 32-bit integers, with a plus sign or without. */
  lemma {:induction false} IntTextExact(s: string)
    ensures IsInt(s) <==> exists sign, z: nat, n: nat :: IsPadded(s, sign, z, n)
  {
    if IsInt(s) {
      var sign, z, n := AcceptedIsPadded(s);
    }
    if sign, z: nat, n: nat :| IsPadded(s, sign, z, n) {
      PaddedIsAccepted(s, sign, z, n);
    }
  }

  /** The text of an integer: a minus sign if it is negative, and digits that begin with a zero for zero only. */
  lemma {:induction false} PrintedIntExact(n: int)
    ensures
      var s := PrintInt(n);
      && (n >= 0 ==> IsNumeral(s, 10) && Value(s, 10) == n && (s[0] == '0' <==> n == 0) && (n == 0 ==> |s| == 1))
      && (n < 0 ==> s[0] == '-' && IsNumeral(s[1..], 10) && Value(s[1..], 10) == -n && |s| > 1 && s[1] != '0')
  {
    PrintedNat(if n < 0 then -n else n);
  }

  /** isInt accepts the printed text of exactly the 32-bit integers, and the long read from it is the integer. */
  lemma {:induction false} PrintedIntReadsBack(n: int)
    ensures IsInt(PrintInt(n)) <==> -0x8000_0000 <= n <= 0x7fff_ffff
    ensures IsInt(PrintInt(n)) ==> ReadBaseZero(PrintInt(n)) == n
  {
    var magnitude := if n < 0 then -n else n;
    PrintedNat(magnitude);
    assert IsDigit(PrintNat(magnitude)[0], 10);
    assert Unsigned(PrintInt(n)) == PrintNat(magnitude);
    assert DecimalReading(PrintInt(n)) == n;
    if IsInt(PrintInt(n)) {
      assert StripZeros("0") == "";
      StoredIntegerExact(PrintInt(n));
    }
  }
}
