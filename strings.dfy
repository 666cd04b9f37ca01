/** The JavaScript string primitives the application relies on: `trim`, the
    case folding of a case-insensitive match, `startsWith`/`endsWith`/`includes`,
    `join`, `Number.prototype.toString` on integers and `parseInt`. */
module Strings {
  import opened Common

  // ---------------------------------------------------------------- trimming

  /** WhiteSpace and LineTerminator code points of ECMAScript (sections 12.2 and
      12.3 of ECMA-262), which `String.prototype.trim` and `parseInt` skip. */
  predicate IsJsWhitespace(c: char)
  {
    var k := c as int;
    k == 0x09 || k == 0x0A || k == 0x0B || k == 0x0C || k == 0x0D || k == 0x20 ||
    k == 0xA0 || k == 0x1680 || (0x2000 <= k <= 0x200A) || k == 0x2028 ||
    k == 0x2029 || k == 0x202F || k == 0x205F || k == 0x3000 || k == 0xFEFF
  }

  /** Neither the first nor the last character is whitespace. */
  predicate IsTrimmed(s: string)
  {
    s == [] || (!IsJsWhitespace(s[0]) && !IsJsWhitespace(s[|s| - 1]))
  }

  /** Leading whitespace removed: the result is the longest suffix of `s` that
      does not start with whitespace, and everything dropped is whitespace. */
  function TrimStart(s: string): (r: string)
    ensures |r| <= |s| && r == s[|s| - |r|..]
    ensures r == [] || !IsJsWhitespace(r[0])
    ensures forall i :: 0 <= i < |s| - |r| ==> IsJsWhitespace(s[i])
    decreases |s|
  {
    if |s| > 0 && IsJsWhitespace(s[0]) then TrimStart(s[1..]) else s
  }

  /** Trailing whitespace removed: the longest prefix of `s` that does not end
      with whitespace, and everything dropped is whitespace. */
  function TrimEnd(s: string): (r: string)
    ensures |r| <= |s| && r == s[..|r|]
    ensures r == [] || !IsJsWhitespace(r[|r| - 1])
    ensures forall i :: |r| <= i < |s| ==> IsJsWhitespace(s[i])
    decreases |s|
  {
    if |s| > 0 && IsJsWhitespace(s[|s| - 1]) then TrimEnd(s[..|s| - 1]) else s
  }

  /** `String.prototype.trim`: the part of `s` left after removing its
      leading and its trailing whitespace. The result is a contiguous slice
      of `s`, everything outside it is whitespace, and it neither starts nor
      ends with whitespace, so no more and no less than the surrounding
      whitespace is removed. */
  function Trim(s: string): (r: string)
    ensures IsTrimmed(r)
    ensures |r| <= |s|
    ensures |s| - |TrimStart(s)| + |r| <= |s|
    ensures r == s[|s| - |TrimStart(s)|..|s| - |TrimStart(s)| + |r|]
    ensures forall k :: 0 <= k < |s| - |TrimStart(s)| ==> IsJsWhitespace(s[k])
    ensures forall k :: |s| - |TrimStart(s)| + |r| <= k < |s| ==> IsJsWhitespace(s[k])
  {
    var t := TrimStart(s);
    var r := TrimEnd(t);
    TrimEndKeepsStart(t);
    PrefixOfSuffix(s, t, r, IsJsWhitespace);
    r
  }

  /** Removing trailing whitespace from text that does not start with
      whitespace leaves trimmed text. */
  lemma TrimEndKeepsStart(t: string)
    requires t == [] || !IsJsWhitespace(t[0])
    ensures IsTrimmed(TrimEnd(t))
  {
    var r := TrimEnd(t);
    if r != [] {
      assert r[0] == t[0];
    }
  }

  /** A prefix `r` of a suffix `t` of `s` is the slice of `s` that starts
      where `t` starts, and what follows `r` in `s` is what follows it in `t`,
      so a property of every character after `r` in `t` holds after `r` in `s`. */
  lemma PrefixOfSuffix<T>(s: seq<T>, t: seq<T>, r: seq<T>, p: T -> bool)
    requires |t| <= |s| && t == s[|s| - |t|..]
    requires |r| <= |t| && r == t[..|r|]
    requires forall k :: |r| <= k < |t| ==> p(t[k])
    ensures r == s[|s| - |t|..|s| - |t| + |r|]
    ensures forall k :: |s| - |t| + |r| <= k < |s| ==> p(s[k])
  {
    var i := |s| - |t|;
    forall k | i + |r| <= k < |s|
      ensures p(s[k])
    {
      assert s[k] == t[k - i];
    }
  }

  /** Trimming leaves an already trimmed string alone, so trimming twice is
      the same as trimming once. */
  lemma {:induction false} TrimOfTrimmed(s: string)
    requires IsTrimmed(s)
    ensures Trim(s) == s
  {
    assert TrimStart(s) == s;
    assert TrimEnd(s) == s;
  }

  lemma TrimIdempotent(s: string)
    ensures Trim(Trim(s)) == Trim(s)
  {
    TrimOfTrimmed(Trim(s));
  }

  /** A string made of whitespace only trims to the empty string. */
  lemma {:induction false} TrimBlank(s: string)
    requires forall i :: 0 <= i < |s| ==> IsJsWhitespace(s[i])
    ensures Trim(s) == ""
  {
    if s != [] {
      assert TrimStart(s) == TrimStart(s[1..]);
      TrimBlank(s[1..]);
    }
  }

  // ---------------------------------------------------------------- case folding and matching

  /** ASCII upper-case letters folded to lower case. */
  function LowerChar(c: char): (r: char)
    ensures 'A' <= c <= 'Z' ==> r as int == c as int + 32
    ensures !('A' <= c <= 'Z') ==> r == c
  {
    if 'A' <= c <= 'Z' then (c as int + 32) as char else c
  }

  function Lower(s: string): (r: string)
    ensures |r| == |s| && forall i :: 0 <= i < |s| ==> r[i] == LowerChar(s[i])
  {
    seq(|s|, i requires 0 <= i < |s| => LowerChar(s[i]))
  }

  predicate StartsWith(s: string, prefix: string)
  {
    |prefix| <= |s| && s[..|prefix|] == prefix
  }

  predicate EndsWith(s: string, suffix: string)
  {
    |suffix| <= |s| && s[|s| - |suffix|..] == suffix
  }

  /** `text.includes(pattern)`. */
  predicate Contains(text: string, pattern: string)
  {
    exists i :: 0 <= i <= |text| && StartsWith(text[i..], pattern)
  }

  /** The database's `{ $regex: pattern, $options: 'i' }` test, read as a
      case-insensitive substring match. */
  predicate MatchesCaseInsensitive(text: string, pattern: string)
  {
    Contains(Lower(text), Lower(pattern))
  }

  /** Every pattern matches itself and the empty pattern matches everything. */
  lemma MatchesItself(text: string)
    ensures MatchesCaseInsensitive(text, text)
    ensures MatchesCaseInsensitive(text, "")
  {
    assert StartsWith(Lower(text)[0..], Lower(text));
    assert StartsWith(Lower(text)[0..], Lower(""));
  }

  /** `parts.join(separator)`. */
  function Join(parts: seq<string>, separator: string): (r: string)
    ensures parts == [] ==> r == ""
    ensures |parts| == 1 ==> r == parts[0]
  {
    if |parts| == 0 then ""
    else if |parts| == 1 then parts[0]
    else parts[0] + separator + Join(parts[1..], separator)
  }

  // ---------------------------------------------------------------- numbers as text

  predicate IsDecimalDigit(c: char)
  {
    '0' <= c <= '9'
  }

  /** The value of a digit in radix 36; 99 for a character that is no digit. */
  function DigitValue(c: char): (d: nat)
    ensures IsDecimalDigit(c) ==> d == c as int - '0' as int
    ensures d < 36 || d == 99
  {
    if '0' <= c <= '9' then c as int - '0' as int
    else if 'a' <= c <= 'z' then c as int - 'a' as int + 10
    else if 'A' <= c <= 'Z' then c as int - 'A' as int + 10
    else 99
  }

  function DecimalDigit(d: nat): (c: char)
    requires d < 10
    ensures IsDecimalDigit(c) && DigitValue(c) == d
  {
    ('0' as int + d) as char
  }

  /** The shortest decimal numeral of n, as `String(n)` writes it. */
  function NatToString(n: nat): (s: string)
    ensures |s| >= 1
    ensures forall i :: 0 <= i < |s| ==> IsDecimalDigit(s[i])
    ensures |s| > 1 ==> s[0] != '0'
    decreases n
  {
    if n < 10 then [DecimalDigit(n)] else NatToString(n / 10) + [DecimalDigit(n % 10)]
  }

  /** `String(x)` for an integer x. */
  function IntToString(x: int): (s: string)
    ensures |s| >= 1
    ensures (s[0] == '-') <==> x < 0
  {
    if x < 0 then "-" + NatToString(-x) else NatToString(x)
  }

  /** The value of a numeral whose characters are digits of the given radix. */
  function NumeralValue(digits: string, radix: nat): nat
    decreases |digits|
  {
    if digits == [] then 0
    else
      var d := DigitValue(digits[|digits| - 1]);
      NumeralValue(digits[..|digits| - 1], radix) * radix + (if d < radix then d else 0)
  }

  /** The longest prefix of `s` made of digits of the radix. */
  function DigitPrefix(s: string, radix: nat): (r: string)
    ensures |r| <= |s| && r == s[..|r|]
    ensures forall i :: 0 <= i < |r| ==> DigitValue(r[i]) < radix
    ensures |r| < |s| ==> DigitValue(s[|r|]) >= radix
    decreases |s|
  {
    if s == [] || DigitValue(s[0]) >= radix then [] else [s[0]] + DigitPrefix(s[1..], radix)
  }

  /** The global `parseInt(s)` without a radix argument (section 19.2.5 of
      ECMA-262): skip leading whitespace, take an optional sign, read a
      hexadecimal numeral after a `0x`/`0X` prefix and a decimal one otherwise,
      and stop at the first character that is no digit. `None` is `NaN`. */
  function JsParseInt(s: string): (r: Option<int>)
    ensures TrimStart(s) == [] ==> r.None?
    ensures r.Some? && r.value < 0 ==> TrimStart(s)[0] == '-'
  {
    var t := TrimStart(s);
    var negative := |t| > 0 && t[0] == '-';
    var unsigned := if |t| > 0 && (t[0] == '-' || t[0] == '+') then t[1..] else t;
    var magnitude := ParseMagnitude(unsigned);
    if magnitude.None? then None else Some(Signed(negative, magnitude.value))
  }

  /** The text `parseInt` reads a number from: what follows the leading
      whitespace and an optional sign. */
  function Unsigned(s: string): (u: string)
  {
    var t := TrimStart(s);
    if |t| > 0 && (t[0] == '-' || t[0] == '+') then t[1..] else t
  }

  /** `parseInt` gives a number only when a decimal digit follows the
      whitespace and the sign, and it always does when that digit does not
      open a `0x` prefix; the number is negative only after a '-'. */
  lemma JsParseIntNeedsDigit(s: string)
    ensures var u := Unsigned(s);
      (JsParseInt(s).Some? ==> |u| > 0 && IsDecimalDigit(u[0])) &&
      (|u| > 0 && IsDecimalDigit(u[0]) && !(|u| >= 2 && u[0] == '0' && (u[1] == 'x' || u[1] == 'X')) ==>
        JsParseInt(s).Some?)
  {
    var u := Unsigned(s);
    var hex := |u| >= 2 && u[0] == '0' && (u[1] == 'x' || u[1] == 'X');
    var digits := DigitPrefix(if hex then u[2..] else u, if hex then 16 else 10);
    assert JsParseInt(s).Some? <==> digits != [];
    if !hex && digits != [] {
      assert digits[0] == u[0];
      assert DigitValue(u[0]) < 10;
    }
    if !hex && |u| > 0 && IsDecimalDigit(u[0]) {
      assert DigitValue(u[0]) < 10;
    }
  }

  /** The unsigned part of `parseInt`: the `0x`/`0X` prefix selects radix 16. */
  function ParseMagnitude(unsigned: string): Option<nat>
  {
    var hex := |unsigned| >= 2 && unsigned[0] == '0' && (unsigned[1] == 'x' || unsigned[1] == 'X');
    var radix := if hex then 16 else 10;
    var digits := DigitPrefix(if hex then unsigned[2..] else unsigned, radix);
    if digits == [] then None else Some(NumeralValue(digits, radix))
  }

  function Signed(negative: bool, magnitude: nat): int
  {
    if negative then -(magnitude as int) else magnitude
  }

  /** Reading back what `NatToString` writes gives the number again. */
  lemma {:induction false} NumeralOfNatToString(n: nat)
    ensures NumeralValue(NatToString(n), 10) == n
    decreases n
  {
    var s := NatToString(n);
    if n >= 10 {
      NumeralOfNatToString(n / 10);
      assert s[..|s| - 1] == NatToString(n / 10);
    }
  }

  lemma {:induction false} DigitPrefixOfDigits(s: string)
    requires forall i :: 0 <= i < |s| ==> IsDecimalDigit(s[i])
    ensures DigitPrefix(s, 10) == s
    decreases |s|
  {
    if s != [] {
      DigitPrefixOfDigits(s[1..]);
    }
  }

  lemma ParseMagnitudeOfDecimal(digits: string)
    requires |digits| >= 1 && forall i :: 0 <= i < |digits| ==> IsDecimalDigit(digits[i])
    ensures ParseMagnitude(digits) == Some(NumeralValue(digits, 10))
  {
    var hex := |digits| >= 2 && digits[0] == '0' && (digits[1] == 'x' || digits[1] == 'X');
    assert !hex by {
      if |digits| >= 2 { assert IsDecimalDigit(digits[1]); }
    }
    DigitPrefixOfDigits(digits);
  }

  lemma TrimStartOfNonBlank(s: string)
    requires s != [] && !IsJsWhitespace(s[0])
    ensures TrimStart(s) == s
  {
  }

  lemma ParseUnsignedDecimal(digits: string)
    requires |digits| >= 1 && forall i :: 0 <= i < |digits| ==> IsDecimalDigit(digits[i])
    ensures JsParseInt(digits) == Some(NumeralValue(digits, 10))
  {
    assert IsDecimalDigit(digits[0]);
    TrimStartOfNonBlank(digits);
    ParseMagnitudeOfDecimal(digits);
  }

  /** After an explicit sign, `parseInt` reads the magnitude of the rest. */
  lemma ParseAfterSign(s: string)
    requires |s| > 0 && (s[0] == '-' || s[0] == '+')
    ensures var m := ParseMagnitude(s[1..]);
      JsParseInt(s) == if m.None? then None else Some(Signed(s[0] == '-', m.value))
  {
    TrimStartOfNonBlank(s);
  }

  lemma ParseSignedDecimal(sign: char, digits: string)
    requires sign == '+' || sign == '-'
    requires |digits| >= 1 && forall i :: 0 <= i < |digits| ==> IsDecimalDigit(digits[i])
    ensures JsParseInt([sign] + digits) == Some(Signed(sign == '-', NumeralValue(digits, 10)))
  {
    var s := [sign] + digits;
    assert s[0] == sign && s[1..] == digits;
    ParseAfterSign(s);
    ParseMagnitudeOfDecimal(digits);
  }

  lemma ParseIntOfNegative(n: nat)
    ensures JsParseInt("-" + NatToString(n)) == Some(Signed(true, n))
  {
    ParseSignedDecimal('-', NatToString(n));
    NumeralOfNatToString(n);
  }

  lemma ParseIntOfNat(n: nat)
    ensures JsParseInt(NatToString(n)) == Some(n)
  {
    ParseUnsignedDecimal(NatToString(n));
    NumeralOfNatToString(n);
  }

  /** `parseInt(String(x)) === x`: printing an integer and parsing it back is
      the identity. */
  lemma ParseIntOfIntToString(x: int)
    ensures JsParseInt(IntToString(x)) == Some(x)
  {
    if x < 0 {
      var n: nat := -x;
      assert IntToString(x) == "-" + NatToString(n);
      ParseIntOfNegative(n);
      assert Signed(true, n) == x;
    } else {
      assert IntToString(x) == NatToString(x);
      ParseIntOfNat(x);
    }
  }

  /** `parseInt` reads an explicitly signed positive numeral back as well. */
  lemma ParseIntOfPlusSigned(n: nat)
    ensures JsParseInt("+" + NatToString(n)) == Some(n)
  {
    ParseSignedDecimal('+', NatToString(n));
    NumeralOfNatToString(n);
  }
}
