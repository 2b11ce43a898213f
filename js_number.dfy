/** The JavaScript number operations the dashboard relies on, for integral
    numbers: `String(n)` (and template-literal interpolation), `parseInt`
    without a radix, the remainder operator `%` and `Math.floor(a / b)`. */
module JsNumber {
  import opened Wrappers
  import JsString

  predicate IsDigit(c: char) {
    '0' <= c <= '9'
  }

  predicate AllDigits(s: string) {
    forall i :: 0 <= i < |s| ==> IsDigit(s[i])
  }

  function DigitChar(d: nat): (c: char)
    requires d < 10
    ensures IsDigit(c) && DigitValue(c) == d
  {
    (48 + d) as char
  }

  /** The value of a character as a digit in radix up to 36, or 36 if it is none. */
  function DigitValue(c: char): (v: nat)
    ensures v <= 36
    ensures v < 10 <==> IsDigit(c)
  {
    if '0' <= c <= '9' then c as int - 48
    else if 'a' <= c <= 'z' then c as int - 97 + 10
    else if 'A' <= c <= 'Z' then c as int - 65 + 10
    else 36
  }

  /** Decimal digits of a natural number, most significant first, no leading zero. */
  function NatToString(n: nat): (s: string)
    ensures |s| > 0 && AllDigits(s)
    ensures |s| > 1 ==> s[0] != '0'
  {
    if n < 10 then [DigitChar(n)] else NatToString(n / 10) + [DigitChar(n % 10)]
  }

  /** `String(n)` for an integral number. */
  function IntToString(n: int): (s: string)
    ensures |s| > 0
    ensures n >= 0 <==> AllDigits(s)
    ensures n < 0 ==> s[0] == '-' && AllDigits(s[1..])
  {
    if n < 0 then
      var s := "-" + NatToString(-n);
      assert !IsDigit(s[0]);
      s
    else NatToString(n)
  }

  /** The two radixes `parseInt` chooses between when it is given none. */
  datatype Radix = Decimal | Hexadecimal

  function Base(radix: Radix): nat {
    if radix == Decimal then 10 else 16
  }

  /** The value of a string of digits in the given radix. */
  function DigitsValue(s: string, radix: Radix): nat
    requires forall i :: 0 <= i < |s| ==> DigitValue(s[i]) < Base(radix)
  {
    if s == [] then 0
    else
      var high := DigitsValue(s[..|s| - 1], radix);
      (if radix == Decimal then high * 10 else high * 16) + DigitValue(s[|s| - 1])
  }

  /** The longest prefix of `s` made of digits of the radix. */
  function DigitPrefix(s: string, radix: Radix): (z: string)
    ensures |z| <= |s| && z == s[..|z|]
    ensures forall i :: 0 <= i < |z| ==> DigitValue(z[i]) < Base(radix)
    ensures |z| < |s| ==> DigitValue(s[|z|]) >= Base(radix)
  {
    if s == [] || DigitValue(s[0]) >= Base(radix) then [] else [s[0]] + DigitPrefix(s[1..], radix)
  }

  /** `parseInt(s)` with no radix: skip leading whitespace, read an optional sign,
      then a numeral; `None` stands for `NaN`. A negative zero is the integer 0. */
  function ParseInt(s: string): Option<int> {
    ParseSigned(JsString.TrimStart(s))
  }

  function ParseSigned(t: string): Option<int> {
    var signed := t != [] && (t[0] == '-' || t[0] == '+');
    var m := ParseMagnitude(if signed then t[1..] else t);
    if t != [] && t[0] == '-' then Negate(m) else m
  }

  function Negate(m: Option<int>): Option<int> {
    if m.Some? then Some(-m.value) else None
  }

  predicate HasHexPrefix(u: string) {
    |u| >= 2 && u[0] == '0' && (u[1] == 'x' || u[1] == 'X')
  }

  /** A `0x` or `0X` prefix selects radix 16, anything else radix 10. */
  function ParseMagnitude(u: string): Option<int> {
    var hex := HasHexPrefix(u);
    ParseDigits(if hex then u[2..] else u, if hex then Hexadecimal else Decimal)
  }

  /** The longest run of digits at the start of `b`; `None` when there is none. */
  function ParseDigits(b: string, radix: Radix): (r: Option<int>)
    ensures r.Some? ==> r.value >= 0
    ensures r.None? <==> (b == [] || DigitValue(b[0]) >= Base(radix))
  {
    var z := DigitPrefix(b, radix);
    if z == [] then None else Some(DigitsValue(z, radix))
  }

  /** What may follow a decimal numeral without changing what `parseInt` reads. */
  predicate EndsNumeral(rest: string) {
    rest == [] || (!IsDigit(rest[0]) && rest[0] != 'x' && rest[0] != 'X')
  }

  lemma {:induction false} DigitPrefixOfNumeral(d: string, rest: string)
    requires AllDigits(d) && EndsNumeral(rest)
    ensures DigitPrefix(d + rest, Decimal) == d
  {
    if d != [] {
      assert (d + rest)[1..] == d[1..] + rest;
      DigitPrefixOfNumeral(d[1..], rest);
      assert d == [d[0]] + d[1..];
    }
  }

  lemma {:induction false} NatToStringValue(n: nat)
    ensures DigitsValue(NatToString(n), Decimal) == n
  {
    var s := NatToString(n);
    if n >= 10 {
      NatToStringValue(n / 10);
      assert s[..|s| - 1] == NatToString(n / 10);
    }
  }

  lemma MagnitudeOfDigits(d: string, rest: string)
    requires d != [] && AllDigits(d) && (|d| > 1 ==> d[0] != '0')
    requires EndsNumeral(rest)
    ensures ParseMagnitude(d + rest) == Some(DigitsValue(d, Decimal))
  {
    DigitPrefixOfNumeral(d, rest);
  }

  lemma TrimStartOfNumeral(s: string)
    requires s != [] && (IsDigit(s[0]) || s[0] == '-' || s[0] == '+')
    ensures JsString.TrimStart(s) == s
  {
  }

  /** What `parseInt` reads from a sign followed by a magnitude. */
  lemma ParseSignedText(sign: char, u: string, v: int)
    requires sign == '-' || sign == '+'
    requires ParseMagnitude(u) == Some(v)
    ensures ParseInt([sign] + u) == Some(if sign == '-' then -v else v)
  {
    var t := [sign] + u;
    assert t[0] == sign && t[1..] == u;
    TrimStartOfNumeral(t);
  }

  lemma SignedNumeral(sign: char, d: string, rest: string, v: int)
    requires sign == '-' || sign == '+'
    requires ParseMagnitude(d + rest) == Some(v)
    ensures ParseInt([sign] + d + rest) == Some(if sign == '-' then -v else v)
  {
    ParseSignedText(sign, d + rest, v);
    assert [sign] + d + rest == [sign] + (d + rest);
  }

  lemma MagnitudeOfNatural(n: nat, rest: string)
    requires EndsNumeral(rest)
    ensures ParseMagnitude(NatToString(n) + rest) == Some(n)
  {
    MagnitudeOfDigits(NatToString(n), rest);
    NatToStringValue(n);
  }

  /** `parseInt(String(n) + rest)` for `n >= 0`. */
  lemma ParseIntNatural(n: nat, rest: string)
    requires EndsNumeral(rest)
    ensures ParseInt(NatToString(n) + rest) == Some(n)
  {
    var d := NatToString(n);
    MagnitudeOfNatural(n, rest);
    TrimStartOfNumeral(d + rest);
    assert (d + rest)[0] == d[0];
  }

  /** `parseInt` accepts a leading `+`. */
  lemma ParseIntPlus(n: nat, rest: string)
    requires EndsNumeral(rest)
    ensures ParseInt("+" + NatToString(n) + rest) == Some(n)
  {
    MagnitudeOfNatural(n, rest);
    SignedNumeral('+', NatToString(n), rest, n);
  }

  /** `parseInt(String(n) + rest)` for `n < 0`. */
  lemma ParseIntNegative(n: int, rest: string)
    requires n < 0 && EndsNumeral(rest)
    ensures ParseInt("-" + NatToString(-n) + rest) == Some(n)
  {
    MagnitudeOfNatural(-n, rest);
    SignedNumeral('-', NatToString(-n), rest, -n);
  }

  /** `parseInt(String(n) + rest)` is `n`. */
  lemma ParseIntToString(n: int, rest: string)
    requires EndsNumeral(rest)
    ensures ParseInt(IntToString(n) + rest) == Some(n)
  {
    if n < 0 {
      NegativeToString(n);
      ParseIntNegative(n, rest);
    } else {
      NonNegativeToString(n);
      ParseIntNatural(n, rest);
    }
  }

  lemma NonNegativeToString(n: int)
    requires n >= 0
    ensures IntToString(n) == NatToString(n)
  {
  }

  lemma NegativeToString(n: int)
    requires n < 0
    ensures IntToString(n) == "-" + NatToString(-n)
  {
  }

  /** Distinct numbers are written differently. */
  lemma IntToStringInjective(a: int, b: int)
    requires IntToString(a) == IntToString(b)
    ensures a == b
  {
    ParseIntToString(a, "");
    ParseIntToString(b, "");
  }

  /** `a % b` for `b > 0`: the remainder takes the sign of the dividend and its
      magnitude is that of `|a| % b`. */
  function JsRem(a: int, b: int): (r: int)
    requires b > 0
    ensures -b < r < b
    ensures a >= 0 ==> r == a % b
    ensures a < 0 ==> r <= 0 && -r == (-a) % b
  {
    if a >= 0 then a % b else -((-a) % b)
  }

  /** `Math.floor(a / b)` for `b > 0`. */
  function FloorDiv(a: int, b: int): (q: int)
    requires b > 0
    ensures q * b <= a < q * b + b
  {
    a / b
  }
}
