/** The two string-to-number conversions the source uses: `parseInt`
    (section 19.2.5 of ECMA-262) and `Number(string)` (section 7.1.4.1.1).
    Numbers that the conversions produce are integers or NaN here. */
module JsNumber {
  import opened Wrappers
  import opened JsText

  /** A JavaScript number as produced by the conversions: an integer value or NaN. */
  datatype JsNum = Num(value: int) | NaN {

    /** JavaScript truthiness of a number: 0 and NaN are falsy. */
    predicate IsTruthy() {
      Num? && value != 0
    }
  }

  /** Value of an alphanumeric digit in radix up to 36; 36 for anything else. */
  function DigitValue(c: char): (v: nat)
    ensures v <= 36
    ensures IsDecimalDigit(c) <==> v < 10
  {
    if '0' <= c <= '9' then c as int - '0' as int
    else if 'a' <= c <= 'z' then c as int - 'a' as int + 10
    else if 'A' <= c <= 'Z' then c as int - 'A' as int + 10
    else 36
  }

  predicate IsRadixDigit(c: char, radix: nat) {
    DigitValue(c) < radix
  }

  predicate AllRadixDigits(s: string, radix: nat) {
    forall i :: 0 <= i < |s| ==> IsRadixDigit(s[i], radix)
  }

  /** Positional value of a digit string, most significant digit first. */
  function DigitsValue(z: string, radix: nat): nat {
    if |z| == 0 then 0
    else DigitsValue(z[..|z| - 1], radix) * radix + DigitValue(z[|z| - 1])
  }

  /** Length of the longest prefix of `s` made of radix digits. */
  function DigitRunLength(s: string, radix: nat): (n: nat)
    ensures n <= |s|
    ensures forall i :: 0 <= i < n ==> IsRadixDigit(s[i], radix)
    ensures n < |s| ==> !IsRadixDigit(s[n], radix)
  {
    if |s| > 0 && IsRadixDigit(s[0], radix) then 1 + DigitRunLength(s[1..], radix) else 0
  }

  /** The sign step of `parseInt`: whether the text starts with `-`, and the
      text after one leading `+` or `-`. */
  function StripSign(t: string): (bool, string) {
    if |t| > 0 && (t[0] == '-' || t[0] == '+') then (t[0] == '-', t[1..]) else (false, t)
  }

  /** The digit step of `parseInt` on unsigned text `u`, with `r` the radix
      argument converted to an integer (0 when it is absent): `0x`/`0X` switches
      to radix 16 when `r` is 0 or 16, a radix outside 2..36 gives NaN, and the
      longest run of digits is read; no digits at all gives NaN. */
  function ParseMagnitude(u: string, r: int): (m: JsNum)
    ensures m.Num? ==> m.value >= 0
  {
    if r != 0 && (r < 2 || r > 36) then NaN
    else
      var hex := (r == 0 || r == 16) && |u| >= 2 && u[0] == '0' && (u[1] == 'x' || u[1] == 'X');
      var base := if hex then 16 else if r == 0 then 10 else r;
      var v := if hex then u[2..] else u;
      var k := DigitRunLength(v, base);
      if k == 0 then NaN else Num(DigitsValue(v[..k], base))
  }

  /** `parseInt(s)` when `radix` is None, `parseInt(s, r)` when it is Some(r):
      leading white space is skipped, then one sign, then the digits are read
      and the rest of the string is ignored. */
  function ParseInt(s: string, radix: Option<int>): (r: JsNum)
    ensures |TrimStart(s)| == 0 ==> r.NaN?
    ensures radix.Some? && radix.value != 0 && (radix.value < 2 || radix.value > 36) ==> r.NaN?
    ensures r.Num? && r.value < 0 ==> |TrimStart(s)| > 0 && TrimStart(s)[0] == '-'
    ensures radix == Some(10) ==>
      var u := StripSign(TrimStart(s)).1; (r.Num? <==> |u| > 0 && IsDecimalDigit(u[0]))
    ensures radix.None? ==>
      var u := StripSign(TrimStart(s)).1;
      |u| > 0 && IsDecimalDigit(u[0]) && !(|u| >= 2 && u[0] == '0' && (u[1] == 'x' || u[1] == 'X')) ==> r.Num?
  {
    var (negative, u) := StripSign(TrimStart(s));
    var m := ParseMagnitude(u, if radix.Some? then radix.value else 0);
    if m.NaN? then NaN else Num(if negative then -m.value else m.value)
  }

  /** Radix named by the second character of a `0x`, `0o` or `0b` literal; 0 otherwise. */
  function PrefixRadix(c: char): nat {
    if c == 'x' || c == 'X' then 16
    else if c == 'o' || c == 'O' then 8
    else if c == 'b' || c == 'B' then 2
    else 0
  }

  /** `Number` on text that has already been trimmed. */
  function TrimmedToNumber(t: string): JsNum {
    if |t| == 0 then Num(0)
    else if |t| > 2 && t[0] == '0' && PrefixRadix(t[1]) > 0 && AllRadixDigits(t[2..], PrefixRadix(t[1])) then
      Num(DigitsValue(t[2..], PrefixRadix(t[1])))
    else
      var (negative, u) := StripSign(t);
      if |u| > 0 && AllRadixDigits(u, 10) then
        var magnitude: int := DigitsValue(u, 10);
        Num(if negative then -magnitude else magnitude)
      else NaN
  }

  /** `Number(s)` for a string: surrounding white space is ignored, the empty
      string is 0, a signed decimal integer or an unsigned `0x`/`0o`/`0b`
      literal is its value, anything else is NaN. */
  function ToNumber(s: string): (r: JsNum)
    ensures Trim(s) == "" ==> r == Num(0)
    ensures |Trim(s)| > 0 && AllRadixDigits(Trim(s), 10) ==> r == Num(DigitsValue(Trim(s), 10))
  {
    var t := Trim(s);
    if |t| > 0 && AllRadixDigits(t, 10) then
      TrimmedToNumberOfDigits(t);
      TrimmedToNumber(t)
    else
      TrimmedToNumber(t)
  }

  /** Reading the decimal rendering of a natural number gives the number back. */
  lemma {:induction false} DigitsValueOfNatToString(n: nat)
    ensures DigitsValue(NatToString(n), 10) == n
  {
    var s := NatToString(n);
    if n >= 10 {
      DigitsValueOfNatToString(n / 10);
      assert s[..|s| - 1] == NatToString(n / 10);
    }
  }

  /** Leading zeros do not change the value of a digit string. */
  lemma {:induction false} DigitsValueZeroPrefix(z: string, s: string, radix: nat)
    requires forall i :: 0 <= i < |z| ==> z[i] == '0'
    ensures DigitsValue(z + s, radix) == DigitsValue(s, radix)
  {
    if |s| == 0 {
      assert z + s == z;
      ZerosHaveValueZero(z, radix);
    } else {
      assert (z + s)[..|z + s| - 1] == z + s[..|s| - 1];
      DigitsValueZeroPrefix(z, s[..|s| - 1], radix);
    }
  }

  lemma {:induction false} ZerosHaveValueZero(z: string, radix: nat)
    requires forall i :: 0 <= i < |z| ==> z[i] == '0'
    ensures DigitsValue(z, radix) == 0
  {
    if |z| > 0 {
      ZerosHaveValueZero(z[..|z| - 1], radix);
    }
  }

  lemma TrimStartKeeps(s: string)
    requires |s| > 0 && !IsWhitespace(s[0])
    ensures TrimStart(s) == s
  {
  }

  lemma TrimEndKeeps(s: string)
    requires |s| > 0 && !IsWhitespace(s[|s| - 1])
    ensures TrimEnd(s) == s
  {
  }

  /** The digit step reads a digit string back whatever follows it, as long as
      that does not start with a digit or an `x` that would make `0x` a prefix. */
  lemma {:induction false} ParseMagnitudeOfDigits(n: nat, rest: string, r: int)
    requires r == 0 || r == 10
    requires rest == [] || (!IsDecimalDigit(rest[0]) && (r == 10 || (rest[0] != 'x' && rest[0] != 'X')))
    ensures ParseMagnitude(NatToString(n) + rest, r) == Num(n)
  {
    var digits := NatToString(n);
    var u := digits + rest;
    if r == 0 && |u| >= 2 && u[0] == '0' {
      assert |digits| == 1;
      assert u[1] == rest[0];
    }
    var k := DigitRunLength(u, 10);
    assert forall i :: 0 <= i < |digits| ==> IsRadixDigit(u[i], 10);
    assert |u| > |digits| ==> u[|digits|] == rest[0] && !IsRadixDigit(u[|digits|], 10);
    assert k == |digits|;
    assert u[..k] == digits;
    DigitsValueOfNatToString(n);
  }

  /** `parseInt` reads an integer's own rendering back, with or without
      radix 10, and ignores whatever follows it when that does not start with a
      digit (nor, without a radix, an `x` that would make `0x` a hex prefix):
      so `parseInt("12abc")` and `parseInt("2.7")` read 12 and 2. */
  lemma {:induction false} ParseIntOfRendering(n: int, rest: string, radix: Option<int>)
    requires radix == None || radix == Some(10)
    requires rest == [] || (!IsDecimalDigit(rest[0]) && (radix == Some(10) || (rest[0] != 'x' && rest[0] != 'X')))
    ensures ParseInt(IntToString(n) + rest, radix) == Num(n)
  {
    var magnitude: nat := if n < 0 then -n else n;
    var r := if radix.Some? then 10 else 0;
    RenderingSign(n, rest);
    ParseMagnitudeOfDigits(magnitude, rest, r);
    ParseIntOfParts(IntToString(n) + rest, radix, n < 0, NatToString(magnitude) + rest, magnitude);
  }

  /** An integer's rendering starts with no white space and carries its sign. */
  lemma RenderingSign(n: int, rest: string)
    ensures var s := IntToString(n) + rest;
      TrimStart(s) == s && StripSign(s) == (n < 0, NatToString(if n < 0 then -n else n) + rest)
  {
    var s := IntToString(n) + rest;
    var digits := NatToString(if n < 0 then -n else n);
    if n < 0 {
      assert s == "-" + (digits + rest);
      assert s[0] == '-';
    } else {
      assert s == digits + rest;
      assert IsDecimalDigit(s[0]);
    }
    assert !IsWhitespace(s[0]);
    TrimStartKeeps(s);
  }

  /** `parseInt` on decimal text as a person types it: optional white space,
      an optional sign, a run of decimal digits with leading zeros allowed, and
      anything that does not continue the number. The value is the signed
      positional value of the digits, so `parseInt(" 0123", 10)` is 123 and
      `parseInt("+5")` is 5. */
  lemma {:induction false} ParseIntOfDecimal(ws: string, sign: string, z: string, rest: string, radix: Option<int>)
    requires radix == None || radix == Some(10)
    requires AllWhitespace(ws)
    requires sign == "" || sign == "+" || sign == "-"
    requires |z| > 0 && AllRadixDigits(z, 10)
    requires rest == [] || (!IsDecimalDigit(rest[0])
      && (radix == Some(10) || |z| > 1 || z[0] != '0' || (rest[0] != 'x' && rest[0] != 'X')))
    ensures ParseInt(ws + sign + z + rest, radix)
      == Num(if sign == "-" then -(DigitsValue(z, 10) as int) else DigitsValue(z, 10))
  {
    SignedDigitsStart(ws, sign, z, rest);
    ParseIntOfSignedDigits(ws + sign + z + rest, radix, sign == "-", z, rest);
  }

  /** `parseInt` once the sign is taken off a digit run. */
  lemma ParseIntOfSignedDigits(s: string, radix: Option<int>, negative: bool, z: string, rest: string)
    requires radix == None || radix == Some(10)
    requires StripSign(TrimStart(s)) == (negative, z + rest)
    requires |z| > 0 && AllRadixDigits(z, 10)
    requires rest == [] || (!IsDecimalDigit(rest[0])
      && (radix == Some(10) || |z| > 1 || z[0] != '0' || (rest[0] != 'x' && rest[0] != 'X')))
    ensures ParseInt(s, radix) == Num(if negative then -(DigitsValue(z, 10) as int) else DigitsValue(z, 10))
  {
    ParseMagnitudeOfDigitString(z, rest, if radix.Some? then 10 else 0);
    ParseIntOfParts(s, radix, negative, z + rest, DigitsValue(z, 10));
  }

  /** White space and one sign in front of a digit run are skipped, and the
      sign is remembered. */
  lemma SignedDigitsStart(ws: string, sign: string, z: string, rest: string)
    requires AllWhitespace(ws)
    requires sign == "" || sign == "+" || sign == "-"
    requires |z| > 0 && AllRadixDigits(z, 10)
    ensures StripSign(TrimStart(ws + sign + z + rest)) == (sign == "-", z + rest)
  {
    var u := z + rest;
    assert u[0] == z[0] && IsRadixDigit(z[0], 10);
    var t := sign + u;
    assert ws + sign + z + rest == ws + t;
    StripSignOf(sign, u);
    TrimStartSkips(ws, t);
  }

  lemma StripSignOf(sign: string, u: string)
    requires sign == "" || sign == "+" || sign == "-"
    requires |u| > 0 && IsDecimalDigit(u[0])
    ensures |sign + u| > 0 && !IsWhitespace((sign + u)[0])
    ensures StripSign(sign + u) == (sign == "-", u)
  {
    if sign != "" {
      assert (sign + u)[0] == sign[0];
      assert (sign + u)[1..] == u;
    } else {
      assert sign + u == u;
    }
  }

  /** The digit step reads any decimal digit string, leading zeros included,
      whatever follows it, as long as that does not continue the number. */
  lemma {:induction false} ParseMagnitudeOfDigitString(z: string, rest: string, r: int)
    requires r == 0 || r == 10
    requires |z| > 0 && AllRadixDigits(z, 10)
    requires rest == [] || (!IsDecimalDigit(rest[0])
      && (r == 10 || |z| > 1 || z[0] != '0' || (rest[0] != 'x' && rest[0] != 'X')))
    ensures ParseMagnitude(z + rest, r) == Num(DigitsValue(z, 10))
  {
    var u := z + rest;
    if r == 0 && |u| >= 2 && u[0] == '0' {
      if |z| > 1 {
        assert u[1] == z[1] && IsRadixDigit(z[1], 10);
      } else {
        assert u[1] == rest[0];
      }
    }
    var k := DigitRunLength(u, 10);
    assert forall i :: 0 <= i < |z| ==> IsRadixDigit(u[i], 10);
    assert |u| > |z| ==> u[|z|] == rest[0] && !IsRadixDigit(u[|z|], 10);
    assert k == |z|;
    assert u[..k] == z;
  }

  /** A string made of white space only. */
  predicate AllWhitespace(ws: string) {
    |ws| == 0 || (IsWhitespace(ws[0]) && AllWhitespace(ws[1..]))
  }

  /** Leading white space is dropped up to the first other character. */
  lemma {:induction false} TrimStartSkips(ws: string, t: string)
    requires AllWhitespace(ws)
    requires |t| > 0 && !IsWhitespace(t[0])
    ensures TrimStart(ws + t) == t
  {
    if |ws| == 0 {
      assert ws + t == t;
      TrimStartKeeps(t);
    } else {
      assert (ws + t)[0] == ws[0];
      assert (ws + t)[1..] == ws[1..] + t;
      TrimStartSkips(ws[1..], t);
    }
  }

  /** `parseInt` assembled from its sign and its magnitude. */
  lemma ParseIntOfParts(s: string, radix: Option<int>, negative: bool, u: string, m: nat)
    requires StripSign(TrimStart(s)) == (negative, u)
    requires ParseMagnitude(u, if radix.Some? then radix.value else 0) == Num(m)
    ensures ParseInt(s, radix) == Num(if negative then -(m as int) else m)
  {
  }

  lemma TrimOfDigits(s: string)
    requires |s| > 0 && AllRadixDigits(s, 10)
    ensures Trim(s) == s
  {
    assert IsRadixDigit(s[0], 10) && IsRadixDigit(s[|s| - 1], 10);
    TrimStartKeeps(s);
    TrimEndKeeps(s);
  }

  lemma TrimmedToNumberOfDigits(s: string)
    requires |s| > 0 && AllRadixDigits(s, 10)
    ensures TrimmedToNumber(s) == Num(DigitsValue(s, 10))
  {
    assert |s| > 2 ==> PrefixRadix(s[1]) == 0 by {
      if |s| > 2 { assert IsRadixDigit(s[1], 10); }
    }
    assert IsRadixDigit(s[0], 10);
    assert StripSign(s) == (false, s);
  }

  /** `Number` reads any non-empty run of decimal digits, leading zeros included,
      as its positional value. */
  lemma ToNumberOfDigits(s: string)
    requires |s| > 0 && AllRadixDigits(s, 10)
    ensures ToNumber(s) == Num(DigitsValue(s, 10))
  {
    TrimOfDigits(s);
    TrimmedToNumberOfDigits(s);
  }

  // ---------------------------------------------------------------------------
  // Digit strings

  /** Left-padding a digit string with zeros keeps it a digit string of the same value. */
  lemma PaddedDigits(s: string, width: nat)
    requires AllRadixDigits(s, 10)
    ensures AllRadixDigits(PadStart(s, width, '0'), 10)
    ensures DigitsValue(PadStart(s, width, '0'), 10) == DigitsValue(s, 10)
  {
    var p := PadStart(s, width, '0');
    var z := p[..|p| - |s|];
    assert p == z + s;
    DigitsValueZeroPrefix(z, s, 10);
  }

  /** The decimal rendering of a number in `[10^k, 10^(k+1))` has k + 1 digits. */
  lemma {:induction false} NatToStringLength(n: nat, k: nat)
    requires n < Pow10(k + 1) && (k == 0 || Pow10(k) <= n)
    ensures |NatToString(n)| == k + 1
  {
    if k > 0 {
      if k == 1 {
        assert n / 10 < 10;
      } else {
        assert Pow10(k - 1) <= n / 10;
      }
      NatToStringLength(n / 10, k - 1);
    }
  }

  function Pow10(k: nat): nat {
    if k == 0 then 1 else 10 * Pow10(k - 1)
  }

  /** The rendering of a number below 100, padded to two digits. */
  lemma TwoDigitRendering(n: nat)
    requires n < 100
    ensures var p := PadStart(IntToString(n), 2, '0');
      |p| == 2 && AllRadixDigits(p, 10) && DigitsValue(p, 10) == n && '-' !in p
  {
    if n >= 10 { NatToStringLength(n, 1); } else { NatToStringLength(n, 0); }
    PaddedDigits(NatToString(n), 2);
    DigitsValueOfNatToString(n);
  }
}
