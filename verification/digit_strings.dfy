/** Integers written as strings: an optional '-' and decimal digits, within 64 bits. */
module DigitStrings {
  import opened Wrappers
  import opened MachineInts
  import opened JsonValues

  predicate IsDigit(c: char) {
    '0' <= c <= '9'
  }

  predicate AllDigits(s: string) {
    forall i | 0 <= i < |s| :: IsDigit(s[i])
  }

  function DigitsValue(s: string): nat
    requires AllDigits(s)
  {
    if s == "" then 0 else 10 * DigitsValue(s[..|s| - 1]) + DigitOf(s[|s| - 1])
  }

  function DigitOf(c: char): nat
    requires IsDigit(c)
  {
    c as int - '0' as int
  }

  /** An optionally signed digit string within 64 bits. */
  function ParseDigitString(s: string): Option<i64> {
    var negative := s != "" && s[0] == '-';
    var digits := if negative then s[1..] else s;
    if digits == "" || !AllDigits(digits) then None else
    var value: int := if negative then -(DigitsValue(digits) as int) else DigitsValue(digits);
    if I64_MIN <= value <= I64_MAX then Some(value) else None
  }

  // ----- Numbers as text -----

  /** A number's decimal digits: the last one is its remainder by ten, the others are those of its tenth. */
  function Digits(n: nat): (s: string)
    ensures s != "" && AllDigits(s)
  {
    (if n < 10 then "" else Digits(n / 10)) + [(0x30 + n % 10) as char]
  }

  function Zeros(k: nat): (s: string)
    ensures |s| == k && forall i | 0 <= i < k :: s[i] == '0'
  {
    seq(k, _ => '0')
  }

  function Signed(negative: bool, n: nat): int {
    if negative then -(n as int) else n
  }

  function WithSign(negative: bool, digits: string): string {
    if negative then ['-'] + digits else digits
  }

  /** `s` is a number's digits, with any number of zeros before them and perhaps a '-' before those. */
  ghost predicate Spells(s: string, negative: bool, zeros: nat, n: nat) {
    s == WithSign(negative, Zeros(zeros) + Digits(n))
  }

  ghost predicate SpellsValue(s: string, value: int) {
    exists negative, zeros, n :: Spells(s, negative, zeros, n) && value == Signed(negative, n)
  }

  lemma AppendedDigit(s: string, c: char)
    requires AllDigits(s) && IsDigit(c)
    ensures AllDigits(s + [c]) && DigitsValue(s + [c]) == 10 * DigitsValue(s) + DigitOf(c)
  {
    assert (s + [c])[..|s|] == s;
  }

  lemma {:induction false} ZerosAreWorthNothing(k: nat, s: string)
    requires AllDigits(s)
    ensures AllDigits(Zeros(k) + s) && DigitsValue(Zeros(k) + s) == DigitsValue(s)
    decreases k + |s|
  {
    if s != "" {
      var init, last := s[..|s| - 1], s[|s| - 1];
      ZerosAreWorthNothing(k, init);
      AppendedDigit(Zeros(k) + init, last);
      assert Zeros(k) + s == (Zeros(k) + init) + [last];
    } else if k > 0 {
      ZerosAreWorthNothing(k - 1, "");
      AppendedDigit(Zeros(k - 1) + "", '0');
      assert Zeros(k) + "" == (Zeros(k - 1) + "") + ['0'];
    }
  }

  lemma {:induction false} DigitsAreWorthTheNumber(n: nat)
    ensures DigitsValue(Digits(n)) == n
  {
    var init, c := if n < 10 then "" else Digits(n / 10), (0x30 + n % 10) as char;
    AppendedDigit(init, c);
    if n >= 10 {
      DigitsAreWorthTheNumber(n / 10);
    }
  }

  lemma DigitsOfAppended(v: nat, c: char)
    requires IsDigit(c)
    ensures v > 0 ==> Digits(10 * v + DigitOf(c)) == Digits(v) + [c]
    ensures Digits(DigitOf(c)) == [c]
  {
    var d := DigitOf(c);
    assert (10 * v + d) / 10 == v && (10 * v + d) % 10 == d;
  }

  /** Any digits are some zeros and the digits of their value. */
  lemma {:induction false} DigitsOfTheirValue(s: string) returns (zeros: nat)
    requires s != "" && AllDigits(s)
    ensures s == Zeros(zeros) + Digits(DigitsValue(s))
  {
    var init, last := s[..|s| - 1], s[|s| - 1];
    assert s == init + [last];
    AppendedDigit(init, last);
    DigitsOfAppended(DigitsValue(init), last);
    if init == "" {
      zeros := 0;
    } else {
      zeros := DigitsOfTheirValue(init);
      if DigitsValue(init) == 0 {
        assert Zeros(zeros) + Digits(0) == Zeros(zeros + 1);
        zeros := zeros + 1;
      }
    }
  }

  lemma SignedDigitsAreParsed(negative: bool, digits: string)
    requires digits != "" && AllDigits(digits)
    ensures var value := Signed(negative, DigitsValue(digits));
      ParseDigitString(WithSign(negative, digits)) == if I64_MIN <= value <= I64_MAX then Some(value) else None
  {
    var s := WithSign(negative, digits);
    assert s[0] == '-' <==> negative by {
      assert IsDigit(digits[0]);
    }
    assert (if negative then s[1..] else s) == digits;
  }

  lemma SpelledIsParsed(s: string, negative: bool, zeros: nat, n: nat)
    requires Spells(s, negative, zeros, n)
    ensures var value := Signed(negative, n);
      ParseDigitString(s) == if I64_MIN <= value <= I64_MAX then Some(value) else None
  {
    ZerosAreWorthNothing(zeros, Digits(n));
    DigitsAreWorthTheNumber(n);
    SignedDigitsAreParsed(negative, Zeros(zeros) + Digits(n));
  }

  lemma ParsedIsSpelled(s: string)
    requires ParseDigitString(s).Some?
    ensures SpellsValue(s, ParseDigitString(s).value)
  {
    var negative := s[0] == '-';
    var digits := if negative then s[1..] else s;
    var zeros := DigitsOfTheirValue(digits);
    assert s == WithSign(negative, digits);
    assert Spells(s, negative, zeros, DigitsValue(digits));
  }

  /**
   A string is read as an integer exactly when it spells one of 64 bits: an optional '-', zeros, and the
   number's own digits. It is read as that number.
   */
  lemma ParsesExactlyWhenSpelled(s: string, value: int)
    requires -0x8000_0000_0000_0000 <= value <= 0x7FFF_FFFF_FFFF_FFFF
    ensures ParseDigitString(s) == Some(value) <==> SpellsValue(s, value)
  {
    if ParseDigitString(s).Some? {
      ParsedIsSpelled(s);
    }
    if SpellsValue(s, value) {
      var negative, zeros, n :| Spells(s, negative, zeros, n) && value == Signed(negative, n);
      SpelledIsParsed(s, negative, zeros, n);
    }
  }

  /** Every 64-bit integer comes back from its own decimal text, with or without zeros before it. */
  lemma DecimalTextIsRead(i: i64, zeros: nat)
    ensures var n: nat := if i < 0 then 0 - i else i;
      ParseDigitString(WithSign(i < 0, Zeros(zeros) + Digits(n))) == Some(i)
  {
    var n: nat := if i < 0 then 0 - i else i;
    assert Spells(WithSign(i < 0, Zeros(zeros) + Digits(n)), i < 0, zeros, n);
    SpelledIsParsed(WithSign(i < 0, Zeros(zeros) + Digits(n)), i < 0, zeros, n);
  }
}
