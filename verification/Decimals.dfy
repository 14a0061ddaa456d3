/**
 Decimal counters carried as text.

 Cursors, revisions and generations travel as strings. The contract checks them
 with a digit pattern (gui/contracts/projection.ts, gui/contracts/verify.ts), the
 reducer turns them into numbers with `BigInt` (gui/src/client/state.ts) and the
 native client adds one and compares digit by digit without ever making a number
 (gui/src/client/nativeLiveClient.ts). This module relates the four.
 */
module Decimals {
  import opened Options
  import opened TextOrder

  predicate IsDigit(c: char) {
    '0' <= c <= '9'
  }

  predicate AllDigits(s: string) {
    forall i :: 0 <= i < |s| ==> IsDigit(s[i])
  }

  function DigitValue(c: char): nat
    requires IsDigit(c)
  {
    (c - '0') as int
  }

  function DigitChar(d: nat): char
    requires d < 10
  {
    '0' + d as char
  }

  /** The number a run of digits denotes; leading zeros are allowed. */
  function Parse(s: string): nat
    requires AllDigits(s)
  {
    if s == [] then 0 else Parse(s[..|s| - 1]) * 10 + DigitValue(s[|s| - 1])
  }

  /** The canonical text of a number: `BigInt.prototype.toString`. */
  function Print(n: nat): string {
    if n < 10 then [DigitChar(n)] else Print(n / 10) + [DigitChar(n % 10)]
  }

  /** /^[1-9][0-9]*$/ */
  predicate MatchesPositive(s: string) {
    |s| > 0 && '1' <= s[0] <= '9' && AllDigits(s)
  }

  /** /^(0|[1-9][0-9]*)$/ */
  predicate MatchesCounter(s: string) {
    s == "0" || MatchesPositive(s)
  }

  // ---------------------------------------------------------------- BigInt

  /** StrWhiteSpaceChar of ECMA-262, section 7.1.4.1. */
  predicate IsStrWhiteSpace(c: char) {
    || '\U{0009}' <= c <= '\U{000D}' || c == ' ' || c == '\U{00A0}' || c == '\U{1680}'
    || '\U{2000}' <= c <= '\U{200A}' || c == '\U{2028}' || c == '\U{2029}'
    || c == '\U{202F}' || c == '\U{205F}' || c == '\U{3000}' || c == '\U{FEFF}'
  }

  function TrimStart(s: string): (r: string)
    ensures |r| <= |s|
    ensures r == [] || !IsStrWhiteSpace(r[0])
  {
    if s != [] && IsStrWhiteSpace(s[0]) then TrimStart(s[1..]) else s
  }

  function TrimEnd(s: string): (r: string)
    ensures r <= s
    ensures r == [] || !IsStrWhiteSpace(r[|r| - 1])
  {
    if s != [] && IsStrWhiteSpace(s[|s| - 1]) then TrimEnd(s[..|s| - 1]) else s
  }

  /** The value of a digit in radix 16, or 16 when the character is not one. */
  function HexValue(c: char): nat {
    if IsDigit(c) then DigitValue(c)
    else if 'a' <= c <= 'f' then 10 + (c - 'a') as int
    else if 'A' <= c <= 'F' then 10 + (c - 'A') as int
    else 16
  }

  function ParseRadix(s: string, radix: nat): Option<nat> {
    if s == [] then Some(0) else
    match ParseRadix(s[..|s| - 1], radix)
    case None => None
    case Some(high) =>
      var d := HexValue(s[|s| - 1]);
      if d < radix then Some(high * radix + d) else None
  }

  /** The radix a prefix such as `0x` announces. */
  function PrefixRadix(s: string): Option<nat> {
    if |s| <= 2 || s[0] != '0' then None
    else if s[1] == 'x' || s[1] == 'X' then Some(16)
    else if s[1] == 'o' || s[1] == 'O' then Some(8)
    else if s[1] == 'b' || s[1] == 'B' then Some(2)
    else None
  }

  function Trimmed(text: string): string {
    TrimEnd(TrimStart(text))
  }

  /** `BigInt(text)` (StringToBigInt, section 7.1.14 of ECMA-262); None is the SyntaxError. */
  function BigIntOf(text: string): Option<int> {
    Literal(Trimmed(text))
  }

  /** What is left of a text without the white space around it, read. */
  function Literal(s: string): Option<int> {
    if s == [] then Some(0)
    else if PrefixRadix(s).Some? then ParseRadix(s[2..], PrefixRadix(s).value)
    else
      var digits := if s[0] == '+' || s[0] == '-' then s[1..] else s;
      if digits == [] || !AllDigits(digits) then None
      else
        var n: int := Parse(digits);
        Some(if s[0] == '-' then -n else n)
  }

  // ------------------------------------------------- the pattern is canonical

  lemma {:induction false} PrintIsCanonical(n: nat)
    ensures MatchesCounter(Print(n))
    ensures n > 0 <==> MatchesPositive(Print(n))
    ensures AllDigits(Print(n)) && Parse(Print(n)) == n
  {
    if n < 10 {
      assert Parse([DigitChar(n)]) == Parse([]) * 10 + n;
    } else {
      PrintIsCanonical(n / 10);
      var s := Print(n);
      assert s[..|s| - 1] == Print(n / 10);
    }
  }

  lemma {:induction false} PositiveParsesPositive(s: string)
    requires MatchesPositive(s)
    ensures Parse(s) > 0
  {
    if |s| > 1 {
      PositiveParsesPositive(s[..|s| - 1]);
    }
  }

  lemma {:induction false} PrintOfParse(s: string)
    requires MatchesCounter(s)
    ensures Print(Parse(s)) == s
  {
    if |s| == 1 {
      assert Parse(s) == Parse([]) * 10 + DigitValue(s[0]);
    } else {
      var high, d := s[..|s| - 1], DigitValue(s[|s| - 1]);
      PositiveParsesPositive(high);
      PrintOfParse(high);
      assert s == high + [s[|s| - 1]];
      assert Parse(s) == Parse(high) * 10 + d && (Parse(high) * 10 + d) / 10 == Parse(high);
    }
  }

  lemma PrintInjective(a: nat, b: nat)
    requires Print(a) == Print(b)
    ensures a == b
  {
    PrintIsCanonical(a);
    PrintIsCanonical(b);
  }

  lemma BigIntOfCounter(s: string)
    requires MatchesCounter(s)
    ensures BigIntOf(s) == Some(Parse(s))
  {
    assert !IsStrWhiteSpace(s[0]) && !IsStrWhiteSpace(s[|s| - 1]);
    assert TrimEnd(TrimStart(s)) == s;
  }

  lemma BigIntOfPrint(n: nat)
    ensures BigIntOf(Print(n)) == Some(n)
  {
    PrintIsCanonical(n);
    BigIntOfCounter(Print(n));
  }

  predicate AllWhiteSpace(s: string) {
    forall i :: 0 <= i < |s| ==> IsStrWhiteSpace(s[i])
  }

  /** White space on either side of a text does not count, and nothing but white space is zero. */
  lemma WhiteSpaceAround(left: string, text: string, right: string)
    requires AllWhiteSpace(left) && AllWhiteSpace(right)
    requires text != "" ==> !IsStrWhiteSpace(text[0]) && !IsStrWhiteSpace(text[|text| - 1])
    ensures BigIntOf(left + text + right) == BigIntOf(text)
    ensures text == "" ==> BigIntOf(text) == Some(0)
  {
    hide IsStrWhiteSpace, Literal, TrimStart, TrimEnd;
    TrimmedStart(left, text + right);
    assert left + text + right == left + (text + right);
    if text == "" {
      NothingLeft(left, right);
    } else {
      assert (text + right)[0] == text[0];
      TrimmedEnd(text, right);
      Untrimmed(text);
      TrimmedStart("", text + right);
      assert "" + (text + right) == text + right;
    }
  }

  lemma NothingLeft(left: string, right: string)
    requires AllWhiteSpace(left) && AllWhiteSpace(right)
    ensures Trimmed(left + "" + right) == "" == Trimmed("") && Literal("") == Some(0)
  {
    hide IsStrWhiteSpace;
    assert left + "" + right == (left + right) + "";
    TrimmedStart(left + right, "");
  }

  lemma {:induction false} TrimmedStart(left: string, rest: string)
    requires AllWhiteSpace(left)
    ensures TrimStart(left + rest) == TrimStart(rest)
    ensures rest != "" && !IsStrWhiteSpace(rest[0]) ==> TrimStart(rest) == rest
  {
    hide IsStrWhiteSpace;
    if left == "" {
      assert left + rest == rest;
    } else {
      assert (left + rest)[1..] == left[1..] + rest && (left + rest)[0] == left[0];
      TrimmedStart(left[1..], rest);
    }
  }

  lemma {:induction false} TrimmedEnd(text: string, right: string)
    requires AllWhiteSpace(right) && text != "" && !IsStrWhiteSpace(text[|text| - 1])
    ensures TrimEnd(text + right) == text
  {
    hide IsStrWhiteSpace;
    if right == "" {
      assert text + right == text;
    } else {
      var all := text + right;
      assert all[..|all| - 1] == text + right[..|right| - 1] && all[|all| - 1] == right[|right| - 1];
      TrimmedEnd(text, right[..|right| - 1]);
    }
  }

  /** A run of digits, leading zeros and all, reads as its number, with a sign in front as that number
      signed; a sign alone, and a sign before a prefix, do not read. */
  lemma SignedDigits(digits: string)
    requires digits != "" && AllDigits(digits)
    ensures BigIntOf(digits) == Some(Parse(digits)) == BigIntOf("+" + digits)
    ensures BigIntOf("-" + digits) == Some(0 - Parse(digits))
    ensures BigIntOf("-").None? && BigIntOf("-0x" + digits).None?
  {
    SignedLiterals(digits);
    hide Literal, Trimmed, Parse;
    Untrimmed(digits);
    Untrimmed("+" + digits);
    Untrimmed("-" + digits);
    Untrimmed("-");
    Untrimmed("-0x" + digits);
  }

  lemma SignedLiterals(digits: string)
    requires digits != "" && AllDigits(digits)
    ensures Literal(digits) == Some(Parse(digits)) == Literal("+" + digits)
    ensures Literal("-" + digits) == Some(0 - Parse(digits))
    ensures Literal("-").None? && Literal("-0x" + digits).None?
  {
    hide Parse, ParseRadix;
    assert ("+" + digits)[1..] == digits && ("-" + digits)[1..] == digits;
    assert ("-0x" + digits)[1..][1] == 'x';
  }

  lemma Untrimmed(s: string)
    requires s != "" && !IsStrWhiteSpace(s[0]) && !IsStrWhiteSpace(s[|s| - 1])
    ensures Trimmed(s) == s
  {
    hide IsStrWhiteSpace;
    TrimmedStart("", s);
    assert "" + s == s && s + "" == s;
    TrimmedEnd(s, "");
  }

  /** Behind a prefix the digits are weighed by the radix it announces, and none is too few. */
  lemma Prefixed(letter: char, radix: nat, digits: string)
    requires digits != "" && !IsStrWhiteSpace(digits[|digits| - 1])
    requires (letter in "xX" && radix == 16) || (letter in "oO" && radix == 8) || (letter in "bB" && radix == 2)
    ensures BigIntOf(['0', letter] + digits) == ParseRadix(digits, radix)
    ensures BigIntOf(['0', letter]).None?
  {
    hide ParseRadix, Trimmed;
    var s := ['0', letter] + digits;
    Untrimmed(s);
    Untrimmed(['0', letter]);
    assert s[2..] == digits;
    assert !AllDigits(['0', letter]) by {
      assert !IsDigit(['0', letter][1]);
    }
  }

  /** Only a nought can begin a prefix. */
  lemma NoOtherPrefix(first: char, letter: char, digits: string)
    requires IsDigit(first) && first != '0' && !IsDigit(letter)
    requires digits != "" && !IsStrWhiteSpace(digits[|digits| - 1])
    ensures BigIntOf([first, letter] + digits).None?
  {
    hide ParseRadix, Trimmed;
    var s := [first, letter] + digits;
    Untrimmed(s);
    assert !IsDigit(s[1]);
  }

  /** What those digits are: 0 to 9 and the letters of either case, as far as the radix goes. */
  lemma PrefixedDigits()
    ensures ParseRadix("fF", 16) == Some(255) && ParseRadix("aA", 16) == Some(170)
    ensures ParseRadix("17", 8) == Some(15) && ParseRadix("101", 2) == Some(5)
    ensures ParseRadix("g", 16).None? && ParseRadix("G", 16).None? && ParseRadix("8", 8).None? && ParseRadix("2", 2).None?
  {
    TwoDigits("fF", 16);
    TwoDigits("aA", 16);
    TwoDigits("17", 8);
    ThreeDigits("101", 2);
    OneDigit("g", 16);
    OneDigit("G", 16);
    OneDigit("8", 8);
    OneDigit("2", 2);
  }

  lemma OneDigit(s: string, radix: nat)
    requires |s| == 1
    ensures ParseRadix(s, radix) == if HexValue(s[0]) < radix then Some(HexValue(s[0])) else None
  {
    assert s[..0] == "";
    assert ParseRadix("", radix) == Some(0);
  }

  lemma TwoDigits(s: string, radix: nat)
    requires |s| == 2 && HexValue(s[0]) < radix && HexValue(s[1]) < radix
    ensures ParseRadix(s, radix) == Some(HexValue(s[0]) * radix + HexValue(s[1]))
  {
    OneDigit(s[..1], radix);
  }

  lemma ThreeDigits(s: string, radix: nat)
    requires |s| == 3 && forall i :: 0 <= i < 3 ==> HexValue(s[i]) < radix
    ensures ParseRadix(s, radix) == Some((HexValue(s[0]) * radix + HexValue(s[1])) * radix + HexValue(s[2]))
  {
    TwoDigits(s[..2], radix);
  }

  /** On every string whatever: the pattern accepts it exactly when `BigInt` reads a
      natural number from it and printing that number gives the same string back.
      So the second check that `validate` makes never rejects anything. */
  lemma CounterPatternIsCanonical(s: string)
    ensures MatchesCounter(s) <==>
            BigIntOf(s).Some? && BigIntOf(s).value >= 0 && Print(BigIntOf(s).value) == s
    ensures MatchesPositive(s) <==>
            BigIntOf(s).Some? && BigIntOf(s).value >= 1 && Print(BigIntOf(s).value) == s
  {
    if MatchesCounter(s) {
      BigIntOfCounter(s);
      PrintOfParse(s);
      if MatchesPositive(s) {
        PositiveParsesPositive(s);
      }
    }
    var r := BigIntOf(s);
    if r.Some? && r.value >= 0 && Print(r.value) == s {
      PrintIsCanonical(r.value);
    }
  }

  // ------------------------------------------------------- digit-wise successor

  function Repeat(c: char, n: nat): (s: string)
    ensures |s| == n && forall i :: 0 <= i < n ==> s[i] == c
  {
    seq(n, _ => c)
  }

  /** Adding one turns a tail of nines into zeros and raises the digit before it. */
  lemma {:induction false} CarryValue(head: string, d: char, k: nat)
    requires AllDigits(head) && '0' <= d < '9'
    ensures AllDigits(head + [d] + Repeat('9', k))
    ensures AllDigits(head + [d + 1 as char] + Repeat('0', k))
    ensures Parse(head + [d + 1 as char] + Repeat('0', k)) == Parse(head + [d] + Repeat('9', k)) + 1
  {
    var low, high := head + [d] + Repeat('9', k), head + [d + 1 as char] + Repeat('0', k);
    if k == 0 {
      assert low[..|low| - 1] == head && high[..|high| - 1] == head;
    } else {
      CarryValue(head, d, k - 1);
      assert low[..|low| - 1] == head + [d] + Repeat('9', k - 1);
      assert high[..|high| - 1] == head + [d + 1 as char] + Repeat('0', k - 1);
    }
  }

  lemma {:induction false} AllNinesValue(k: nat)
    ensures AllDigits(Repeat('9', k)) && AllDigits("1" + Repeat('0', k))
    ensures Parse("1" + Repeat('0', k)) == Parse(Repeat('9', k)) + 1
  {
    var low, high := Repeat('9', k), "1" + Repeat('0', k);
    if k == 0 {
      assert high == ['1'] && Parse(high) == Parse([]) * 10 + 1;
    } else {
      AllNinesValue(k - 1);
      assert low[..|low| - 1] == Repeat('9', k - 1);
      assert high[..|high| - 1] == "1" + Repeat('0', k - 1);
    }
  }

  /** What the loop of `Successor` returns when it meets a digit that is not nine. */
  lemma CarryStops(head: string, d: char, k: nat)
    requires AllDigits(head) && '0' <= d < '9'
    requires MatchesCounter(head + [d] + Repeat('9', k))
    ensures AllDigits(head + [d] + Repeat('9', k))
    ensures head + [d + 1 as char] + Repeat('0', k) == Print(Parse(head + [d] + Repeat('9', k)) + 1)
  {
    CarryValue(head, d, k);
    var value, next := head + [d] + Repeat('9', k), head + [d + 1 as char] + Repeat('0', k);
    assert head != [] ==> next[0] == value[0] && |value| > 1;
    assert head == [] ==> next[0] == d + 1 as char;
    assert MatchesPositive(next);
    PrintOfParse(next);
  }

  /** The state of the digit buffer when the carry stops at `index`. */
  lemma CarriedText(value: string, digits: string, index: nat)
    requires MatchesCounter(value) && |digits| == |value| && index < |value|
    requires value[index] != '9' && digits[index] == value[index] + 1 as char
    requires forall j :: 0 <= j < index ==> digits[j] == value[j]
    requires forall j :: index < j < |value| ==> digits[j] == '0' && value[j] == '9'
    ensures digits == Print(Parse(value) + 1)
  {
    hide Parse, Print;
    var head, k := value[..index], |value| - 1 - index;
    assert AllDigits(head);
    assert value == head + [value[index]] + Repeat('9', k);
    assert digits == head + [value[index] + 1 as char] + Repeat('0', k);
    CarryStops(head, value[index], k);
  }

  lemma CarryOverflows(value: string)
    requires value == Repeat('9', |value|) && value != []
    ensures AllDigits(value) && "1" + Repeat('0', |value|) == Print(Parse(value) + 1)
  {
    AllNinesValue(|value|);
    PrintOfParse("1" + Repeat('0', |value|));
  }

  /** `successor`: refuses text that is not a counter, otherwise adds one in place,
      one digit at a time from the right. */
  method Successor(value: string) returns (r: Option<string>)
    ensures r.None? <==> !MatchesCounter(value)
    ensures r.Some? ==> r.value == Print(Parse(value) + 1)
  {
    if !MatchesCounter(value) {
      return None;
    }
    var digits := new char[|value|](i requires 0 <= i < |value| => value[i]);
    var index := |value| - 1;
    while index >= 0
      invariant -1 <= index < |value| && digits.Length == |value|
      invariant forall j :: 0 <= j <= index ==> digits[j] == value[j]
      invariant forall j :: index < j < |value| ==> digits[j] == '0' && value[j] == '9'
    {
      if digits[index] != '9' {
        digits[index] := DigitChar(DigitValue(value[index]) + 1);
        CarriedText(value, digits[..], index);
        return Some(digits[..]);
      }
      digits[index] := '0';
      index := index - 1;
    }
    assert value == Repeat('9', |value|) && digits[..] == Repeat('0', |value|);
    CarryOverflows(value);
    return Some("1" + digits[..]);
  }

  // -------------------------------------------------------- digit-wise ordering

  /** `compareDecimal` on two counters. */
  function CompareDecimal(a: string, b: string): int {
    if |a| != |b| then |a| - |b|
    else if TextBefore(a, b) then -1
    else if TextBefore(b, a) then 1
    else 0
  }

  function Pow10(n: nat): (r: nat)
    ensures r > 0
  {
    if n == 0 then 1 else 10 * Pow10(n - 1)
  }

  lemma ShiftDigit(d: nat, p: nat)
    ensures d * (10 * p) == (d * p) * 10
  {
  }

  lemma {:induction false} ParseFromFront(s: string)
    requires AllDigits(s) && s != []
    ensures AllDigits(s[1..])
    ensures Parse(s) == DigitValue(s[0]) * Pow10(|s| - 1) + Parse(s[1..])
  {
    if |s| == 1 {
      assert Parse(s) == Parse([]) * 10 + DigitValue(s[0]);
    } else {
      var high, tail := s[..|s| - 1], s[1..];
      ParseFromFront(high);
      assert tail[..|tail| - 1] == high[1..];
      assert Parse(tail) == Parse(high[1..]) * 10 + DigitValue(s[|s| - 1]);
      ShiftDigit(DigitValue(s[0]), Pow10(|s| - 2));
    }
  }

  lemma {:induction false} ParseBelowPow10(s: string)
    requires AllDigits(s)
    ensures Parse(s) < Pow10(|s|)
  {
    if s != [] {
      ParseBelowPow10(s[..|s| - 1]);
    }
  }

  lemma PositiveAtLeastPow10(s: string)
    requires MatchesPositive(s)
    ensures Pow10(|s| - 1) <= Parse(s)
  {
    ParseFromFront(s);
    AtLeastOnce(DigitValue(s[0]), Pow10(|s| - 1));
  }

  lemma AtLeastOnce(d: nat, p: nat)
    requires d >= 1
    ensures d * p >= p
  {
    var rest := d - 1;
    assert (rest + 1) * p == rest * p + p;
  }

  lemma {:induction false} Pow10Monotone(a: nat, b: nat)
    requires a <= b
    ensures Pow10(a) <= Pow10(b)
  {
    if a < b {
      Pow10Monotone(a, b - 1);
    }
  }

  lemma LeadingDigitDecides(x: nat, y: nat, p: nat, a: nat, b: nat)
    requires x < y && a < p
    ensures x * p + a < y * p + b
  {
    var gap := y - x;
    assert (x + gap) * p == x * p + gap * p;
    assert gap * p >= p;
  }

  lemma {:induction false} SameLengthOrder(a: string, b: string)
    requires AllDigits(a) && AllDigits(b) && |a| == |b|
    ensures TextBefore(a, b) <==> Parse(a) < Parse(b)
  {
    if a != [] {
      ParseFromFront(a);
      ParseFromFront(b);
      ParseBelowPow10(a[1..]);
      ParseBelowPow10(b[1..]);
      var p, x, y := Pow10(|a| - 1), DigitValue(a[0]), DigitValue(b[0]);
      if x < y {
        LeadingDigitDecides(x, y, p, Parse(a[1..]), Parse(b[1..]));
      } else if y < x {
        LeadingDigitDecides(y, x, p, Parse(b[1..]), Parse(a[1..]));
      } else {
        SameLengthOrder(a[1..], b[1..]);
      }
    }
  }

  lemma LongerIsLarger(a: string, b: string)
    requires MatchesCounter(a) && MatchesCounter(b) && |a| < |b|
    ensures Parse(a) < Parse(b)
  {
    ParseBelowPow10(a);
    PositiveAtLeastPow10(b);
    Pow10Monotone(|a|, |b| - 1);
  }

  /** Comparing counters as text agrees with comparing the numbers they denote. */
  lemma CompareDecimalIsNumeric(a: string, b: string)
    requires MatchesCounter(a) && MatchesCounter(b)
    ensures CompareDecimal(a, b) < 0 <==> Parse(a) < Parse(b)
    ensures CompareDecimal(a, b) == 0 <==> a == b
    ensures CompareDecimal(a, b) > 0 <==> Parse(a) > Parse(b)
  {
    if |a| < |b| {
      LongerIsLarger(a, b);
    } else if |b| < |a| {
      LongerIsLarger(b, a);
    } else {
      SameLengthOrder(a, b);
      SameLengthOrder(b, a);
      if Parse(a) == Parse(b) {
        PrintOfParse(a);
        PrintOfParse(b);
      }
    }
  }
}
