/**
 * The pieces of the JavaScript runtime the application's handlers rely on:
 * whitespace and `String.prototype.trim`, `parseInt(s, 10)`,
 * `Number.prototype.toString` on integers, `padStart(2, '0')` and the
 * truncating `%` operator.  Numbers are the integers the application
 * produces; floating point is not modelled.
 */
module JsText {

  /** An integer-valued JavaScript number, or NaN. */
  datatype IntOrNaN = NaN | Num(value: int)

  /** The characters ECMAScript calls WhiteSpace or LineTerminator (the ones `trim` and `parseInt` skip). */
  predicate IsWhitespace(c: char) {
    var n := c as int;
    n == 0x09 || n == 0x0B || n == 0x0C || n == 0x20 || n == 0xA0 || n == 0xFEFF
    || n == 0x0A || n == 0x0D || n == 0x2028 || n == 0x2029
    || n == 0x1680 || (0x2000 <= n <= 0x200A) || n == 0x202F || n == 0x205F || n == 0x3000
  }

  predicate IsBlank(s: string) {
    forall i :: 0 <= i < |s| ==> IsWhitespace(s[i])
  }

  /** `s` without its leading whitespace. */
  function TrimStart(s: string): string {
    if s != [] && IsWhitespace(s[0]) then TrimStart(s[1..]) else s
  }

  /** `s` without its trailing whitespace. */
  function TrimEnd(s: string): string {
    if s != [] && IsWhitespace(s[|s| - 1]) then TrimEnd(s[..|s| - 1]) else s
  }

  /** What TrimStart leaves is a suffix of `s` that does not start with whitespace, and only whitespace was dropped. */
  lemma {:induction false} TrimStartIsSuffix(s: string)
    ensures var r := TrimStart(s);
      |r| <= |s| && r == s[|s| - |r|..]
      && (forall i :: 0 <= i < |s| - |r| ==> IsWhitespace(s[i]))
      && (r == [] || !IsWhitespace(r[0]))
  {
    if s != [] && IsWhitespace(s[0]) {
      TrimStartIsSuffix(s[1..]);
    }
  }

  /** What TrimEnd leaves is a prefix of `s` that does not end with whitespace, and only whitespace was dropped. */
  lemma {:induction false} TrimEndIsPrefix(s: string)
    ensures var r := TrimEnd(s);
      |r| <= |s| && r == s[..|r|]
      && (forall i :: |r| <= i < |s| ==> IsWhitespace(s[i]))
      && (r == [] || !IsWhitespace(r[|r| - 1]))
  {
    if s != [] && IsWhitespace(s[|s| - 1]) {
      TrimEndIsPrefix(s[..|s| - 1]);
    }
  }

  /** `s.trim()` */
  function Trim(s: string): string {
    TrimEnd(TrimStart(s))
  }

  /** `!s.trim()` holds exactly when `s` is empty or consists of whitespace only. */
  lemma TrimEmptyIffBlank(s: string)
    ensures Trim(s) == [] <==> IsBlank(s)
  {
    var t := TrimStart(s);
    TrimStartIsSuffix(s);
    TrimEndIsPrefix(t);
  }

  /** The trimmed text neither starts nor ends with whitespace, lies inside `s`, and trimming again changes nothing. */
  lemma TrimIsCanonical(s: string)
    ensures var r := Trim(s);
      (r == [] || (!IsWhitespace(r[0]) && !IsWhitespace(r[|r| - 1])))
      && |r| <= |s|
      && Trim(r) == r
  {
    var t := TrimStart(s);
    var r := TrimEnd(t);
    TrimStartIsSuffix(s);
    TrimEndIsPrefix(t);
    if r != [] {
      assert r[0] == t[0];
      assert TrimStart(r) == r;
    }
  }

  predicate IsDigit(c: char) {
    '0' <= c <= '9'
  }

  predicate AllDigits(s: string) {
    forall i :: 0 <= i < |s| ==> IsDigit(s[i])
  }

  function DigitChar(d: int): (c: char)
    requires 0 <= d < 10
    ensures IsDigit(c) && c as int - '0' as int == d
  {
    ('0' as int + d) as char
  }

  /** The value of a string of decimal digits, most significant first (leading zeros allowed). */
  function DigitsValue(s: string): int {
    if s == [] then 0 else DigitsValue(s[..|s| - 1]) * 10 + (s[|s| - 1] as int - '0' as int)
  }

  /** The longest prefix of `s` made of decimal digits. */
  function LeadingDigits(s: string): string {
    if s != [] && IsDigit(s[0]) then [s[0]] + LeadingDigits(s[1..]) else []
  }

  /** LeadingDigits is a prefix of `s` made of digits that cannot be extended by another digit. */
  lemma {:induction false} LeadingDigitsIsLongestDigitPrefix(s: string)
    ensures var r := LeadingDigits(s);
      AllDigits(r) && |r| <= |s| && r == s[..|r|]
      && (|r| == |s| || !IsDigit(s[|r|]))
  {
    if s != [] && IsDigit(s[0]) {
      var t := LeadingDigits(s[1..]);
      LeadingDigitsIsLongestDigitPrefix(s[1..]);
      assert LeadingDigits(s) == [s[0]] + t;
      assert s[..|t| + 1] == [s[0]] + s[1..][..|t|];
    }
  }

  /**
   * `parseInt(s, 10)`: skip leading whitespace, take one optional sign, then
   * the longest run of decimal digits; NaN when there is no digit.
   */
  function ParseInt(s: string): IntOrNaN {
    var t := TrimStart(s);
    var negative := |t| > 0 && t[0] == '-';
    var unsigned := if |t| > 0 && (t[0] == '-' || t[0] == '+') then t[1..] else t;
    var digits := LeadingDigits(unsigned);
    if digits == [] then NaN
    else if negative then Num(-DigitsValue(digits))
    else Num(DigitsValue(digits))
  }

  /** The decimal numeral of `n`: digits only, no leading zero, denoting `n`. */
  function NatToString(n: nat): (r: string)
    ensures |r| >= 1 && AllDigits(r) && DigitsValue(r) == n
    ensures r[0] != '0' || n == 0
    ensures (|r| == 1) == (n < 10)
    ensures n < 100 ==> |r| <= 2
  {
    if n < 10 then [DigitChar(n)]
    else
      var prefix := NatToString(n / 10);
      var r := prefix + [DigitChar(n % 10)];
      assert r[..|r| - 1] == prefix;
      r
  }

  /** `i.toString()` for an integer `i`. */
  function IntToString(i: int): string {
    if i < 0 then "-" + NatToString(-i) else NatToString(i)
  }

  /** `p.toString()`: "NaN" for NaN. */
  function NumberToString(p: IntOrNaN): string {
    match p
    case NaN => "NaN"
    case Num(i) => IntToString(i)
  }

  lemma LeadingDigitsOfDigits(s: string)
    requires AllDigits(s)
    ensures LeadingDigits(s) == s
  {
    LeadingDigitsIsLongestDigitPrefix(s);
  }

  lemma TrimStartNoLeadingSpace(s: string)
    requires s != [] && !IsWhitespace(s[0])
    ensures TrimStart(s) == s
  {
  }

  /** `parseInt` reads an unsigned digit string as its value. */
  lemma ParseIntOfDigits(d: string)
    requires d != [] && AllDigits(d)
    ensures ParseInt(d) == Num(DigitsValue(d))
  {
    TrimStartNoLeadingSpace(d);
    assert d[0] != '-' && d[0] != '+';
    LeadingDigitsOfDigits(d);
  }

  /** `parseInt` reads a '-' followed by a digit string as the negated value. */
  lemma ParseIntOfNegatedDigits(d: string)
    requires d != [] && AllDigits(d)
    ensures ParseInt("-" + d) == Num(-DigitsValue(d))
  {
    var m := "-" + d;
    assert m[0] == '-';
    TrimStartNoLeadingSpace(m);
    assert m[1..] == d;
    LeadingDigitsOfDigits(d);
  }

  /** `parseInt` reads back every integer `toString` writes. */
  lemma IntToStringReadsBack(i: int)
    ensures ParseInt(IntToString(i)) == Num(i)
  {
    if i < 0 {
      ParseIntOfNegatedDigits(NatToString(-i));
    } else {
      ParseIntOfDigits(NatToString(i));
    }
  }

  /** `parseInt(String(p), 10)` gives back `p`, NaN included. */
  lemma NumberToStringReadsBack(p: IntOrNaN)
    ensures ParseInt(NumberToString(p)) == p
  {
    match p
    case NaN =>
      assert LeadingDigits("NaN") == [];
    case Num(i) =>
      IntToStringReadsBack(i);
  }

  /** `parseInt` stops at the first character that is not a digit. */
  lemma ParseIntStopsAtNonDigit()
    ensures ParseInt(" 7min") == Num(7)
  {
    assert TrimStart(" 7min") == "7min";
    assert "7min"[1..] == "min";
    assert LeadingDigits("min") == [];
    assert LeadingDigits("7min") == "7";
    assert DigitsValue("7") == 7;
  }

  /** Text without digits after the optional sign is NaN. */
  lemma ParseIntWithoutDigits()
    ensures ParseInt("") == NaN
    ensures ParseInt("abc") == NaN
    ensures ParseInt("- 5") == NaN
  {
    assert LeadingDigits("abc") == [];
    assert TrimStart("- 5") == "- 5";
    assert LeadingDigits(" 5") == [];
  }

  /** `s.padStart(2, '0')`: `s` itself, preceded by as many '0's as bring it to length 2. */
  function PadStart2(s: string): (r: string)
    ensures |r| == (if |s| >= 2 then |s| else 2)
    ensures r[|r| - |s|..] == s
    ensures forall i :: 0 <= i < |r| - |s| ==> r[i] == '0'
  {
    if |s| >= 2 then s else seq(2 - |s|, _ => '0') + s
  }

  /** JavaScript's `a % b` for `b > 0`: the remainder takes the sign of `a`. */
  function Rem(a: int, b: int): (r: int)
    requires b > 0
    ensures a >= 0 ==> 0 <= r < b
    ensures a < 0 ==> -b < r <= 0
    ensures (a - r) % b == 0
  {
    if a >= 0 then
      DivModUnique(a - a % b, b, a / b, 0);
      a % b
    else
      DivModUnique(a + (-a) % b, b, -((-a) / b), 0);
      -((-a) % b)
  }

  /** Euclidean division is unique: a quotient and a remainder in 0..b-1 determine `x % b`. */
  lemma DivModUnique(x: int, b: int, q: int, m: int)
    requires b > 0 && x == q * b + m && 0 <= m < b
    ensures x % b == m
  {
    var d := q - x / b;
    assert d * b == q * b - (x / b) * b;
    assert d > 0 ==> d * b >= b;
    assert d < 0 ==> d * b <= -b;
  }

  lemma DigitsValueOfZeros(z: string)
    requires forall i :: 0 <= i < |z| ==> z[i] == '0'
    ensures AllDigits(z) && DigitsValue(z) == 0
  {
    if z != [] {
      DigitsValueOfZeros(z[..|z| - 1]);
    }
  }

  /** Leading zeros do not change the value of a digit string. */
  lemma {:induction false} DigitsValueZeroPrefix(z: string, s: string)
    requires forall i :: 0 <= i < |z| ==> z[i] == '0'
    requires AllDigits(s)
    ensures AllDigits(z + s) && DigitsValue(z + s) == DigitsValue(s)
  {
    DigitsValueOfZeros(z);
    if s == [] {
      assert z + s == z;
    } else {
      var zs := z + s;
      assert zs[..|zs| - 1] == z + s[..|s| - 1];
      DigitsValueZeroPrefix(z, s[..|s| - 1]);
    }
  }

  /** A padded numeral still denotes the same number. */
  lemma PaddedNumeral(n: nat)
    ensures var r := PadStart2(NatToString(n));
      AllDigits(r) && DigitsValue(r) == n && (n < 100 ==> |r| == 2)
  {
    var s := NatToString(n);
    var r := PadStart2(s);
    var z := r[..|r| - |s|];
    assert r == z + s;
    DigitsValueZeroPrefix(z, s);
  }
}
