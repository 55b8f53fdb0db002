/**
 * The two number conversions the monitor relies on: `strtoul(s, &end, 0)`,
 * which reads a GPIO number given on the command line, and `sprintf("%u")`,
 * which writes the active mask into AZ5_ACTIVE. `unsigned long` is taken to
 * be 32 bits wide, as wide as `unsigned`.
 */
module Numerals {

  /** ULONG_MAX of a 32-bit `unsigned long`. */
  const ULongMax: nat := 0xFFFF_FFFF

  /** The characters `isspace` accepts in the C locale. */
  predicate IsSpace(c: char)
  {
    c == ' ' || c == '\t' || c == '\n' || c == '\U{B}' || c == '\U{C}' || c == '\r'
  }

  /** The value of c as a digit in bases up to 36 (letters in either case);
      36 for a character that is no digit in any base. */
  function DigitValue(c: char): nat
  {
    if '0' <= c <= '9' then c as nat - '0' as nat
    else if 'a' <= c <= 'z' then c as nat - 'a' as nat + 10
    else if 'A' <= c <= 'Z' then c as nat - 'A' as nat + 10
    else 36
  }

  /** The lower-case digit character of d. */
  function DigitChar(d: nat): (c: char)
    requires d < 16
    ensures DigitValue(c) == d
  {
    if d < 10 then ('0' as nat + d) as char else ('a' as nat + d - 10) as char
  }

  /** The length of the longest prefix of s made of digits of the base. */
  function DigitRun(s: string, base: nat): (k: nat)
    ensures k <= |s|
    ensures forall i :: 0 <= i < k ==> DigitValue(s[i]) < base
    ensures k < |s| ==> DigitValue(s[k]) >= base
  {
    if s == [] || DigitValue(s[0]) >= base then 0 else 1 + DigitRun(s[1..], base)
  }

  /** The value of a string of digits in the base, most significant first. */
  function ValueOf(digits: string, base: nat): nat
  {
    if digits == [] then 0
    else ValueOf(digits[..|digits| - 1], base) * base + DigitValue(digits[|digits| - 1])
  }

  /** The number of leading white-space characters of s. */
  function LeadingSpaces(s: string): (k: nat)
    ensures k <= |s|
    ensures forall i :: 0 <= i < k ==> IsSpace(s[i])
    ensures k < |s| ==> !IsSpace(s[k])
  {
    if s == [] || !IsSpace(s[0]) then 0 else 1 + LeadingSpaces(s[1..])
  }

  /** What strtoul returns: the value, and the index `end` points to. */
  datatype Conversion = Conversion(value: nat, end: nat)

  /** `strtoul(s, &end, 0)`: white space, an optional sign, then a number
      in base 16 after "0x" or "0X", base 8 after a leading "0", base 10
      otherwise. "0x" not followed by a hexadecimal digit reads as 0 with
      `end` at the "x"; no digit at all reads as 0 with `end` at the start;
      a value above ULONG_MAX reads as ULONG_MAX; a minus sign negates
      modulo 2^32. */
  function Strtoul(s: string): (r: Conversion)
    ensures r.end <= |s| && r.value <= ULongMax
  {
    var i := LeadingSpaces(s);
    var negative := i < |s| && s[i] == '-';
    var j := if i < |s| && (s[i] == '+' || s[i] == '-') then i + 1 else i;
    var start := if HexPrefix(s, j) then j + 2 else j;
    var base := Radix(s, j);
    var k := DigitRun(s[start..], base);
    if k == 0 then Conversion(0, 0)
    else Conversion(Clamp(ValueOf(s[start..start + k], base), negative), start + k)
  }

  /** s[j..] starts with "0x" or "0X" and a hexadecimal digit. */
  predicate HexPrefix(s: string, j: nat)
  {
    j + 2 < |s| && s[j] == '0' && (s[j + 1] == 'x' || s[j + 1] == 'X') && DigitValue(s[j + 2]) < 16
  }

  /** The base strtoul chooses for base 0 at the number starting at j. */
  function Radix(s: string, j: nat): nat
  {
    if HexPrefix(s, j) then 16 else if j < |s| && s[j] == '0' then 8 else 10
  }

  /** The value strtoul returns for the digits' value v. */
  function Clamp(v: nat, negative: bool): (r: nat)
    ensures r <= ULongMax
  {
    if v > ULongMax then ULongMax else if negative && v != 0 then ULongMax + 1 - v else v
  }

  /** The digits of m in the base, most significant first, without leading
      zeros; `sprintf("%u", m)` is Digits(m, 10). */
  function Digits(m: nat, base: nat): (s: string)
    requires 2 <= base <= 16
    ensures |s| >= 1
    decreases m
  {
    if m < base then [DigitChar(m)] else Digits(m / base, base) + [DigitChar(m % base)]
  }

  /** `sprintf(buf, "%u", m)` */
  function Decimal(m: nat): string
  {
    Digits(m, 10)
  }

  /** Every character of Digits(m, base) is a digit of that base, and the
      first is '0' only when m is 0. */
  lemma {:induction false} DigitsShape(m: nat, base: nat)
    requires 2 <= base <= 16
    ensures forall i :: 0 <= i < |Digits(m, base)| ==> DigitValue(Digits(m, base)[i]) < base
    ensures DigitValue(Digits(m, base)[0]) == 0 <==> m == 0
    decreases m
  {
    if m >= base {
      DigitsShape(m / base, base);
    }
  }

  lemma DivMod(m: nat, base: nat)
    requires base >= 2
    ensures (m / base) * base + m % base == m
  {
  }

  lemma ValueOfAppend(front: string, c: char, base: nat)
    ensures ValueOf(front + [c], base) == ValueOf(front, base) * base + DigitValue(c)
  {
    assert (front + [c])[..|front|] == front;
  }

  /** Digits reads back as the number it was written from. */
  lemma {:induction false} DigitsValue(m: nat, base: nat)
    requires 2 <= base <= 16
    ensures ValueOf(Digits(m, base), base) == m
    decreases m
  {
    if m >= base {
      DigitsValue(m / base, base);
      ValueOfAppend(Digits(m / base, base), DigitChar(m % base), base);
      DivMod(m, base);
    } else {
      SingleDigitValue(m, base);
    }
  }

  lemma SingleDigitValue(m: nat, base: nat)
    requires 2 <= base <= 16 && m < base
    ensures ValueOf(Digits(m, base), base) == m
  {
    ValueOfAppend([], DigitChar(m), base);
    assert [] + [DigitChar(m)] == Digits(m, base);
  }

  /** A leading zero digit does not change the value. */
  lemma {:induction false} LeadingZero(c: char, digits: string, base: nat)
    requires DigitValue(c) == 0
    ensures ValueOf([c] + digits, base) == ValueOf(digits, base)
    decreases |digits|
  {
    var s := [c] + digits;
    if digits != [] {
      assert s[..|s| - 1] == [c] + digits[..|digits| - 1];
      LeadingZero(c, digits[..|digits| - 1], base);
    } else {
      assert s[..0] == [];
    }
  }

  /** A string that is one number with no white space or sign in front and
      nothing after it is consumed whole. */
  lemma StrtoulWhole(s: string, start: nat)
    requires s != [] && !IsSpace(s[0]) && s[0] != '+' && s[0] != '-'
    requires start == if HexPrefix(s, 0) then 2 else 0
    requires start < |s|
    requires forall i :: start <= i < |s| ==> DigitValue(s[i]) < Radix(s, 0)
    ensures Strtoul(s) == Conversion(Clamp(ValueOf(s[start..], Radix(s, 0)), false), |s|)
  {
    var base := Radix(s, 0);
    var rest := s[start..];
    assert LeadingSpaces(s) == 0;
    forall i | 0 <= i < |rest|
      ensures DigitValue(rest[i]) < base
    {
      assert rest[i] == s[start + i];
    }
    assert DigitRun(rest, base) == |rest|;
    assert s[start..start + |rest|] == rest;
  }

  /** `sprintf("%u")` output parses back with strtoul base 0 to the same
      number, consuming all of it: its first digit is never a '0' that
      would switch to octal, except for "0" itself. */
  lemma DecimalRoundTrip(m: nat)
    requires m <= ULongMax
    ensures Strtoul(Decimal(m)) == Conversion(m, |Decimal(m)|)
  {
    var s := Decimal(m);
    DigitsShape(m, 10);
    DigitsValue(m, 10);
    assert !HexPrefix(s, 0) by {
      if |s| > 1 { assert DigitValue(s[1]) < 10; }
    }
    if m == 0 {
      assert s == "0";
    }
    assert s[0..] == s;
    StrtoulWhole(s, 0);
  }

  /** "0x" followed by hexadecimal digits parses in base 16. */
  lemma HexRoundTrip(m: nat)
    requires m <= ULongMax
    ensures var s := "0x" + Digits(m, 16); Strtoul(s) == Conversion(m, |s|)
  {
    var d := Digits(m, 16);
    var s := "0x" + d;
    DigitsShape(m, 16);
    DigitsValue(m, 16);
    assert s[2..] == d && s[2] == d[0];
    assert HexPrefix(s, 0);
    StrtoulWhole(s, 2);
  }

  /** A leading "0" followed by octal digits parses in base 8. */
  lemma OctalRoundTrip(m: nat)
    requires m <= ULongMax
    ensures var s := "0" + Digits(m, 8); Strtoul(s) == Conversion(m, |s|)
  {
    var d := Digits(m, 8);
    var s := "0" + d;
    DigitsShape(m, 8);
    DigitsValue(m, 8);
    LeadingZero('0', d, 8);
    assert s[1] == d[0] && DigitValue(d[0]) < 8;
    assert !HexPrefix(s, 0);
    assert s[0..] == s;
    StrtoulWhole(s, 0);
  }

  function Pow10(k: nat): nat
  {
    if k == 0 then 1 else 10 * Pow10(k - 1)
  }

  lemma {:induction false} DecimalLength(m: nat, k: nat)
    requires 1 <= k && m < Pow10(k)
    ensures |Decimal(m)| <= k
    decreases k
  {
    if m >= 10 {
      DecimalLength(m / 10, k - 1);
    }
  }

  /** Any 32-bit value prints in at most 10 digits: with the terminating
      NUL it fits the 11-byte buffer `active`. */
  lemma DecimalFitsBuffer(m: nat)
    requires m <= ULongMax
    ensures |Decimal(m)| <= 10
  {
    assert Pow10(10) == 10000000000;
    DecimalLength(m, 10);
  }
}
