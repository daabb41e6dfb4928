/**
 * The JavaScript string operations the record derivation relies on: rendering a
 * non-negative integer in decimal (`String(n)`, template literals), `parseInt(s, 10)`,
 * `s.replace(/\\/g, "/")` and `s.includes(sub)`.
 */
module JsString {

  predicate IsDigit(c: char) {
    '0' <= c <= '9'
  }

  predicate AllDigits(s: string) {
    forall i :: 0 <= i < |s| ==> IsDigit(s[i])
  }

  function DigitChar(d: nat): (c: char)
    requires d < 10
    ensures IsDigit(c) && c as int - '0' as int == d
  {
    ('0' as int + d) as char
  }

  function DigitValue(c: char): (d: nat)
    requires IsDigit(c)
    ensures d < 10 && DigitChar(d) == c
  {
    c as int - '0' as int
  }

  /** The number a string of decimal digits denotes, read left to right. */
  function DigitsValue(s: string): nat
    requires AllDigits(s)
  {
    if s == [] then 0 else DigitsValue(s[..|s| - 1]) * 10 + DigitValue(s[|s| - 1])
  }

  lemma DigitsValueSnoc(s: string, c: char)
    requires AllDigits(s) && IsDigit(c)
    ensures AllDigits(s + [c])
    ensures DigitsValue(s + [c]) == DigitsValue(s) * 10 + DigitValue(c)
  {
    assert (s + [c])[..|s|] == s;
  }

  /** The decimal rendering of a non-negative integer: digits only, no leading zero. */
  function Decimal(n: nat): (s: string)
    ensures |s| >= 1 && AllDigits(s)
    ensures s[0] == '0' ==> n == 0
  {
    if n < 10 then [DigitChar(n)] else Decimal(n / 10) + [DigitChar(n % 10)]
  }

  /** Reading the rendering back gives the number: `Decimal` loses nothing. */
  lemma {:induction false} DecimalValue(n: nat)
    ensures DigitsValue(Decimal(n)) == n
  {
    if n >= 10 {
      var s := Decimal(n);
      assert s[..|s| - 1] == Decimal(n / 10);
      DecimalValue(n / 10);
    }
  }

  lemma DecimalInjective(m: nat, n: nat)
    requires Decimal(m) == Decimal(n)
    ensures m == n
  {
    DecimalValue(m);
    DecimalValue(n);
  }

  /** `String(i)` for an integer. */
  function IntToString(i: int): (s: string)
    ensures |s| >= 1
    ensures s[0] == '-' <==> i < 0
  {
    if i < 0 then "-" + Decimal(-i) else Decimal(i)
  }

  /** The characters `parseInt` skips before the number (the StrWhiteSpaceChar set without the
      Unicode space separators other than U+00A0). */
  predicate IsWhiteSpace(c: char) {
    c == ' ' || c == '\t' || c == '\n' || c == '\r' || c == '\U{000B}' || c == '\U{000C}'
    || c == '\U{00A0}' || c == '\U{FEFF}' || c == '\U{2028}' || c == '\U{2029}'
  }

  function TrimStart(s: string): (r: string)
    ensures |r| <= |s| && r == s[|s| - |r|..]
    ensures r == [] || !IsWhiteSpace(r[0])
  {
    if s != [] && IsWhiteSpace(s[0]) then TrimStart(s[1..]) else s
  }

  /** The longest prefix of decimal digits. */
  function DigitPrefix(s: string): (r: string)
    ensures |r| <= |s| && r == s[..|r|] && AllDigits(r)
    ensures |r| < |s| ==> !IsDigit(s[|r|])
  {
    if s != [] && IsDigit(s[0]) then [s[0]] + DigitPrefix(s[1..]) else []
  }

  datatype ParsedInt = Int(value: int) | NaN

  /** The number at the start of `t`, read without a sign. */
  function ParseUnsigned(t: string): (r: ParsedInt)
    ensures r.Int? ==> r.value >= 0
  {
    var digits := DigitPrefix(t);
    if digits == [] then NaN else Int(DigitsValue(digits))
  }

  /** `parseInt(s, 10)`: skip leading white space, read an optional sign and the longest run of
      digits that follows; `NaN` when there is no digit. (`-0` is read as 0.) */
  function ParseInt(s: string): ParsedInt
  {
    var t := TrimStart(s);
    if t != [] && t[0] == '-' then
      match ParseUnsigned(t[1..])
      case Int(v) => Int(-v)
      case NaN => NaN
    else if t != [] && t[0] == '+' then ParseUnsigned(t[1..])
    else ParseUnsigned(t)
  }

  /** `parseInt` yields NaN exactly when no digit follows the white space and the optional
      sign; otherwise the value of the digit run, negative only after a minus sign. */
  lemma ParseIntReads(s: string)
    ensures var t := TrimStart(s);
            var u := if t != [] && (t[0] == '-' || t[0] == '+') then t[1..] else t;
            (ParseInt(s).NaN? <==> DigitPrefix(u) == [])
            && (ParseInt(s).Int? ==>
                  (ParseInt(s).value < 0 ==> t != [] && t[0] == '-')
                  && (if ParseInt(s).value < 0 then -ParseInt(s).value else ParseInt(s).value)
                     == DigitsValue(DigitPrefix(u)))
  {
  }

  lemma {:induction false} DigitPrefixOfDigits(d: string, rest: string)
    requires AllDigits(d)
    requires rest == [] || !IsDigit(rest[0])
    ensures DigitPrefix(d + rest) == d
  {
    if d != [] {
      assert (d + rest)[1..] == d[1..] + rest;
      DigitPrefixOfDigits(d[1..], rest);
    } else {
      assert d + rest == rest;
    }
  }

  /** `parseInt` reads back a rendered number, whatever non-digit text follows it
      (as in "72 dpi"). */
  lemma ParseIntDecimalPrefix(n: nat, rest: string)
    requires rest == [] || !IsDigit(rest[0])
    ensures ParseInt(Decimal(n) + rest) == Int(n)
  {
    var d := Decimal(n);
    var s := d + rest;
    assert IsDigit(d[0]);
    assert s[0] == d[0];
    ParseIntUnsigned(s);
    DigitPrefixOfDigits(d, rest);
    DecimalValue(n);
  }

  /** Text that starts with a digit has no white space or sign to skip. */
  lemma ParseIntUnsigned(s: string)
    requires s != [] && IsDigit(s[0])
    ensures ParseInt(s) == ParseUnsigned(s)
  {
    assert !IsWhiteSpace(s[0]) && s[0] != '-' && s[0] != '+';
    assert TrimStart(s) == s;
  }

  lemma ParseIntNegative(n: nat)
    ensures ParseInt("-" + Decimal(n)) == Int(-(n as int))
  {
    var s := "-" + Decimal(n);
    assert s[0] == '-';
    assert TrimStart(s) == s;
    assert s[1..] == Decimal(n) + [];
    DigitPrefixOfDigits(Decimal(n), []);
    DecimalValue(n);
    assert ParseUnsigned(s[1..]) == Int(n);
  }

  /** `parseInt(String(i), 10) === i`. */
  lemma ParseIntRoundTrip(i: int)
    ensures ParseInt(IntToString(i)) == Int(i)
  {
    var s := IntToString(i);
    if i < 0 {
      var n: nat := -i;
      assert s == "-" + Decimal(n);
      ParseIntNegative(n);
      assert ParseInt(s) == Int(-(n as int));
    } else {
      var n: nat := i;
      assert s == Decimal(n) + [];
      ParseIntDecimalPrefix(n, []);
      assert ParseInt(s) == Int(n);
    }
  }

  /** `s.replace(/\\/g, "/")`: every backslash becomes a slash, nothing else changes. */
  function ReplaceBackslashes(s: string): (r: string)
    ensures |r| == |s|
    ensures forall i :: 0 <= i < |s| ==> r[i] == (if s[i] == '\\' then '/' else s[i])
    ensures '\\' !in r
  {
    if s == [] then [] else [if s[0] == '\\' then '/' else s[0]] + ReplaceBackslashes(s[1..])
  }

  /** Normalising an already normalised location changes nothing. */
  lemma ReplaceBackslashesIdempotent(s: string)
    ensures ReplaceBackslashes(ReplaceBackslashes(s)) == ReplaceBackslashes(s)
  {
    var r := ReplaceBackslashes(s);
    var rr := ReplaceBackslashes(r);
    assert forall i :: 0 <= i < |r| ==> rr[i] == r[i] by {
      forall i | 0 <= i < |r| ensures rr[i] == r[i] {
        assert r[i] in r;
      }
    }
  }

  predicate StartsWith(s: string, prefix: string) {
    |prefix| <= |s| && s[..|prefix|] == prefix
  }

  /** `s.includes(sub)`. */
  predicate Includes(s: string, sub: string)
    decreases |s|
  {
    StartsWith(s, sub) || (s != [] && Includes(s[1..], sub))
  }

  /** `sub` occurs in `s` starting at position `k`. */
  predicate OccursAt(s: string, sub: string, k: nat) {
    k + |sub| <= |s| && s[k..k + |sub|] == sub
  }

  /** `includes` finds `sub` wherever it occurs. */
  lemma {:induction false} IncludesAt(s: string, sub: string, k: nat)
    requires OccursAt(s, sub, k)
    ensures Includes(s, sub)
    decreases k
  {
    if k > 0 {
      assert s[1..][k - 1..k - 1 + |sub|] == s[k..k + |sub|];
      IncludesAt(s[1..], sub, k - 1);
    }
  }

  /** Where `includes` succeeds, `sub` occurs at some position of `s`. */
  lemma {:induction false} IncludesFind(s: string, sub: string) returns (k: nat)
    requires Includes(s, sub)
    ensures OccursAt(s, sub, k)
    decreases |s|
  {
    if StartsWith(s, sub) {
      k := 0;
    } else {
      var j := IncludesFind(s[1..], sub);
      assert s[1..][j..j + |sub|] == s[j + 1..j + 1 + |sub|];
      k := j + 1;
    }
  }

  /** `s.includes(sub)` holds exactly when `sub` occurs at some position of `s`. */
  lemma IncludesIff(s: string, sub: string)
    ensures Includes(s, sub) <==> exists k: nat :: OccursAt(s, sub, k)
  {
    if Includes(s, sub) {
      var k := IncludesFind(s, sub);
    }
    if exists k: nat :: OccursAt(s, sub, k) {
      var k: nat :| OccursAt(s, sub, k);
      IncludesAt(s, sub, k);
    }
  }
}
