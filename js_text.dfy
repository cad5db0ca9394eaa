/**
 * The parts of the JavaScript runtime that the modelled code relies on, on strings
 * modelled as `seq<char>` (sequences of Unicode scalar values; JavaScript's UTF-16
 * surrogate pairs are not distinguished): `String(n)` for integers,
 * `padStart`, `startsWith`, `indexOf` and `replace` with a string pattern,
 * `parseInt(s, 10)` and `Array.prototype.join`, together with the decimal
 * decoding the date parsers perform.
 */
module JsText {

  import opened Wrappers

  // ---------------------------------------------------------------------------
  // Decimal digits
  // ---------------------------------------------------------------------------

  predicate IsDigit(c: char) {
    '0' <= c <= '9'
  }

  predicate AllDigits(s: string) {
    forall k :: 0 <= k < |s| ==> IsDigit(s[k])
  }

  function DigitChar(d: nat): (c: char)
    requires d < 10
    ensures IsDigit(c) && DigitValue(c) == d
  {
    ('0' as int + d) as char
  }

  function DigitValue(c: char): (d: nat)
    requires IsDigit(c)
    ensures d < 10
  {
    c as int - '0' as int
  }

  function Pow10(k: nat): (p: nat)
    ensures p >= 1
  {
    if k == 0 then 1 else 10 * Pow10(k - 1)
  }

  /** The number a string of decimal digits denotes (leading zeros allowed). */
  function DigitsValue(s: string): nat
    requires AllDigits(s)
  {
    if s == [] then 0 else DigitsValue(s[..|s| - 1]) * 10 + DigitValue(s[|s| - 1])
  }

  /** `String(n)` for a non-negative integer: shortest decimal form, no leading zero. */
  function NatToString(n: nat): (r: string)
    ensures |r| >= 1 && AllDigits(r)
    ensures r[0] == '0' <==> n == 0
  {
    if n < 10 then [DigitChar(n)] else NatToString(n / 10) + [DigitChar(n % 10)]
  }

  /** `String(i)` for any integer: a minus sign before the digits of a negative value. */
  function IntToString(i: int): (r: string)
    ensures i >= 0 ==> r == NatToString(i)
    ensures i < 0 ==> r == "-" + NatToString(-i)
  {
    if i < 0 then "-" + NatToString(-i) else NatToString(i)
  }

  lemma {:induction false} DigitsValueOfNatToString(n: nat)
    ensures DigitsValue(NatToString(n)) == n
  {
    if n >= 10 {
      var s := NatToString(n);
      assert s[..|s| - 1] == NatToString(n / 10);
      DigitsValueOfNatToString(n / 10);
    }
  }

  lemma {:induction false} DigitsPositive(t: string)
    requires AllDigits(t) && |t| >= 1 && t[0] != '0'
    ensures DigitsValue(t) >= 1
  {
    if |t| > 1 {
      DigitsPositive(t[..|t| - 1]);
    }
  }

  /** Reading digits back through `String(n)` gives the same text when there is no leading zero. */
  lemma {:induction false} NatToStringOfDigits(t: string)
    requires AllDigits(t) && |t| >= 1 && (t[0] != '0' || |t| == 1)
    ensures NatToString(DigitsValue(t)) == t
  {
    var init := t[..|t| - 1];
    if |t| == 1 {
      assert DigitsValue(t) == DigitValue(t[0]);
      assert t == [t[0]];
    } else {
      NatToStringOfDigits(init);
      DigitsPositive(init);
      var v := DigitsValue(t);
      assert v / 10 == DigitsValue(init) && v % 10 == DigitValue(t[|t| - 1]);
      assert t == init + [t[|t| - 1]];
    }
  }

  /** `String(n)` has at most `k` digits exactly when `n < 10^k`. */
  lemma {:induction false} NatToStringLength(n: nat, k: nat)
    requires k >= 1
    ensures |NatToString(n)| <= k <==> n < Pow10(k)
  {
    if n >= 10 {
      if k == 1 {
        assert |NatToString(n / 10)| >= 1;
      } else {
        NatToStringLength(n / 10, k - 1);
        assert n / 10 < Pow10(k - 1) <==> n < Pow10(k);
      }
    } else {
      assert Pow10(k) >= 10 by { assert Pow10(k) == 10 * Pow10(k - 1); }
    }
  }

  // ---------------------------------------------------------------------------
  // String.prototype.padStart with a one-character filler
  // ---------------------------------------------------------------------------

  function PadStart(s: string, len: nat, fill: char): (r: string)
    ensures |r| == if |s| >= len then |s| else len
    ensures r[|r| - |s|..] == s
    ensures forall k :: 0 <= k < |r| - |s| ==> r[k] == fill
  {
    if |s| >= len then s else seq(len - |s|, _ => fill) + s
  }

  /** A run of leading zeros does not change the value of a digit string. */
  lemma {:induction false} LeadingZerosValue(z: string, s: string)
    requires forall k :: 0 <= k < |z| ==> z[k] == '0'
    requires AllDigits(s)
    ensures AllDigits(z + s) && DigitsValue(z + s) == DigitsValue(s)
  {
    if s == [] {
      assert z + s == z;
      if z != [] {
        LeadingZerosValue(z[..|z| - 1], []);
        assert z[..|z| - 1] + [] == z[..|z| - 1];
      }
    } else {
      LeadingZerosValue(z, s[..|s| - 1]);
      assert (z + s)[..|z + s| - 1] == z + s[..|s| - 1];
    }
  }

  /** Zero-padding `String(n)` to `k` characters gives exactly `k` digits denoting `n`. */
  lemma PaddedDigits(n: nat, k: nat)
    requires k >= 1 && n < Pow10(k)
    ensures var r := PadStart(NatToString(n), k, '0');
      |r| == k && AllDigits(r) && DigitsValue(r) == n
  {
    NatToStringLength(n, k);
    DigitsValueOfNatToString(n);
    PaddedValue(NatToString(n), k);
  }

  /** Zero-padding `String(n)` to at least `k` characters gives digits denoting `n`, however large `n` is. */
  lemma PaddedAtLeast(n: nat, k: nat)
    ensures var r := PadStart(NatToString(n), k, '0');
      |r| >= k && AllDigits(r) && DigitsValue(r) == n
  {
    DigitsValueOfNatToString(n);
    if |NatToString(n)| <= k {
      PaddedValue(NatToString(n), k);
    }
  }

  /** Zero-padding a digit string up to `k` characters keeps its value. */
  lemma PaddedValue(s: string, k: nat)
    requires AllDigits(s) && |s| <= k
    ensures var r := PadStart(s, k, '0');
      |r| == k && AllDigits(r) && DigitsValue(r) == DigitsValue(s)
  {
    var r := PadStart(s, k, '0');
    var z := r[..|r| - |s|];
    assert r == z + s;
    LeadingZerosValue(z, s);
  }

  /** Two digits read back and re-padded to two characters give the same text. */
  lemma TwoDigitsRepad(t: string)
    requires |t| == 2 && AllDigits(t)
    ensures PadStart(NatToString(DigitsValue(t)), 2, '0') == t
  {
    assert t[..1] == [t[0]];
    if t[0] == '0' {
      assert DigitsValue(t[..1]) == 0 by { assert t[..1][..0] == []; }
      assert DigitsValue(t) == DigitValue(t[1]);
      assert NatToString(DigitsValue(t)) == [t[1]];
    } else {
      NatToStringOfDigits(t);
    }
  }

  // ---------------------------------------------------------------------------
  // startsWith, indexOf and replace with a string pattern
  // ---------------------------------------------------------------------------

  predicate StartsWith(s: string, prefix: string) {
    |prefix| <= |s| && s[..|prefix|] == prefix
  }

  predicate OccursAt(s: string, pat: string, j: nat) {
    j + |pat| <= |s| && s[j..j + |pat|] == pat
  }

  /** `s.indexOf(pat, from)`: the first position at or after `from` where `pat` occurs. */
  function IndexOfFrom(s: string, pat: string, from: nat): (r: Option<nat>)
    ensures r.Some? ==> from <= r.value && OccursAt(s, pat, r.value)
    ensures r.Some? ==> forall j: nat :: from <= j < r.value ==> !OccursAt(s, pat, j)
    ensures r.None? ==> forall j: nat :: from <= j ==> !OccursAt(s, pat, j)
    decreases |s| - from
  {
    if from + |pat| > |s| then None
    else if s[from..from + |pat|] == pat then Some(from)
    else IndexOfFrom(s, pat, from + 1)
  }

  function IndexOf(s: string, pat: string): (r: Option<nat>)
    ensures r.Some? ==> OccursAt(s, pat, r.value)
    ensures r.Some? ==> forall j: nat :: j < r.value ==> !OccursAt(s, pat, j)
    ensures r.None? ==> forall j: nat :: !OccursAt(s, pat, j)
  {
    IndexOfFrom(s, pat, 0)
  }

  /**
   * `s.replace(pat, rep)` with a string pattern: only the first occurrence is
   * replaced. (A replacement containing `$` patterns is not modelled; the
   * replacements used by the modelled code contain no `$`.)
   */
  function ReplaceFirst(s: string, pat: string, rep: string): (r: string)
    ensures IndexOf(s, pat).None? ==> r == s
    ensures IndexOf(s, pat).Some? ==>
      var i := IndexOf(s, pat).value;
      r == s[..i] + rep + s[i + |pat|..]
  {
    match IndexOf(s, pat)
    case None => s
    case Some(i) => s[..i] + rep + s[i + |pat|..]
  }

  /** When `s` starts with the pattern, `replace` rewrites exactly that prefix. */
  lemma ReplaceFirstAtStart(s: string, pat: string, rep: string)
    requires StartsWith(s, pat)
    ensures ReplaceFirst(s, pat, rep) == rep + s[|pat|..]
  {
    assert OccursAt(s, pat, 0);
  }

  // ---------------------------------------------------------------------------
  // parseInt(s, 10)
  // ---------------------------------------------------------------------------

  /** A JavaScript number produced by `parseInt`: an integer or NaN. */
  datatype ParsedInt = NaN | Int(value: int)

  /** The characters `parseInt` skips at the front: WhiteSpace and LineTerminator of ECMAScript. */
  predicate IsJsWhitespace(c: char) {
    c in {'\t', '\n', '\U{B}', '\U{C}', '\r', ' ', '\U{A0}', '\U{1680}',
          '\U{2000}', '\U{2001}', '\U{2002}', '\U{2003}', '\U{2004}', '\U{2005}',
          '\U{2006}', '\U{2007}', '\U{2008}', '\U{2009}', '\U{200A}',
          '\U{2028}', '\U{2029}', '\U{202F}', '\U{205F}', '\U{3000}', '\U{FEFF}'}
  }

  function TrimStart(s: string): (r: string)
    ensures |r| <= |s| && r == s[|s| - |r|..]
    ensures r == [] || !IsJsWhitespace(r[0])
  {
    if |s| > 0 && IsJsWhitespace(s[0]) then TrimStart(s[1..]) else s
  }

  /** The length of the longest all-digit prefix of `s`. */
  function LeadingDigits(s: string): (n: nat)
    ensures n <= |s| && AllDigits(s[..n])
    ensures n < |s| ==> !IsDigit(s[n])
  {
    if |s| > 0 && IsDigit(s[0]) then 1 + LeadingDigits(s[1..]) else 0
  }

  /**
   * `parseInt(s, 10)`: skip leading white space, read an optional sign, then the
   * longest run of decimal digits; NaN when there is none. Anything after the
   * digits is ignored.
   */
  function ParseInt(s: string): ParsedInt {
    ParseSigned(TrimStart(s))
  }

  /**
   * What `parseInt` returns: NaN exactly when no digit follows the leading white space
   * and the optional sign; otherwise the value of the run of digits, negated after `-`.
   */
  lemma ParseIntResult(s: string)
    ensures var u := Unsigned(TrimStart(s)); ParseInt(s).NaN? <==> LeadingDigits(u) == 0
    ensures var t := TrimStart(s); var u := Unsigned(t);
      ParseInt(s).Int? ==>
        ParseInt(s).value == (if |t| > 0 && t[0] == '-' then -1 else 1) * DigitsValue(u[..LeadingDigits(u)])
  {
    ParseSignedResult(TrimStart(s));
  }

  lemma ParseSignedResult(t: string)
    ensures var u := Unsigned(t); ParseSigned(t).NaN? <==> LeadingDigits(u) == 0
    ensures var u := Unsigned(t);
      ParseSigned(t).Int? ==>
        ParseSigned(t).value == (if |t| > 0 && t[0] == '-' then -1 else 1) * DigitsValue(u[..LeadingDigits(u)])
  {
  }

  /** The text after an optional leading sign. */
  function Unsigned(t: string): (u: string)
    ensures u == t || (|t| > 0 && u == t[1..] && (t[0] == '-' || t[0] == '+'))
  {
    if |t| > 0 && (t[0] == '-' || t[0] == '+') then t[1..] else t
  }

  /** An optional sign, then the digits. */
  function ParseSigned(t: string): ParsedInt {
    if |t| > 0 && t[0] == '-' then Negate(ParseDigits(t[1..]))
    else if |t| > 0 && t[0] == '+' then ParseDigits(t[1..])
    else ParseDigits(t)
  }

  function Negate(p: ParsedInt): ParsedInt {
    match p
    case NaN => NaN
    case Int(v) => Int(-v)
  }

  /** The value of the longest run of leading digits; NaN when there is none. */
  function ParseDigits(u: string): ParsedInt {
    var n := LeadingDigits(u);
    if n == 0 then NaN else Int(DigitsValue(u[..n]))
  }

  lemma {:induction false} LeadingDigitsAppend(d: string, rest: string)
    requires AllDigits(d)
    requires rest == [] || !IsDigit(rest[0])
    ensures LeadingDigits(d + rest) == |d|
  {
    if d != [] {
      assert (d + rest)[1..] == d[1..] + rest;
      LeadingDigitsAppend(d[1..], rest);
    }
  }

  /** Text that starts with a digit is read by its digits alone. */
  lemma ParseIntAtDigit(u: string)
    requires u != [] && IsDigit(u[0])
    ensures ParseInt(u) == ParseDigits(u)
  {
    assert !IsJsWhitespace(u[0]);
    assert TrimStart(u) == u;
  }

  /** A leading minus sign negates what the digits after it give. */
  lemma ParseIntAtMinus(u: string)
    ensures ParseInt("-" + u) == Negate(ParseDigits(u))
  {
    var s := "-" + u;
    assert !IsJsWhitespace(s[0]);
    assert TrimStart(s) == s;
    assert s[1..] == u;
  }

  lemma ParseDigitsOfDigits(d: string, rest: string)
    requires AllDigits(d) && d != []
    requires rest == [] || !IsDigit(rest[0])
    ensures ParseDigits(d + rest) == Int(DigitsValue(d))
  {
    LeadingDigitsAppend(d, rest);
    assert (d + rest)[..|d|] == d;
  }

  /** `parseInt` reads an unsigned digit string followed by a non-digit as its value. */
  lemma ParseIntOfDigits(d: string, rest: string)
    requires AllDigits(d) && d != []
    requires rest == [] || !IsDigit(rest[0])
    ensures ParseInt(d + rest) == Int(DigitsValue(d))
  {
    assert (d + rest)[0] == d[0];
    ParseIntAtDigit(d + rest);
    ParseDigitsOfDigits(d, rest);
  }

  /** `parseInt` reads a minus sign and a digit string followed by a non-digit as its negation. */
  lemma ParseIntOfNegatedDigits(d: string, rest: string)
    requires AllDigits(d) && d != []
    requires rest == [] || !IsDigit(rest[0])
    ensures ParseInt("-" + d + rest) == Int(-(DigitsValue(d) as int))
  {
    MinusBeforeText(d, rest);
    NegatedDigitsValue(d, rest);
  }

  lemma MinusBeforeText(d: string, rest: string)
    ensures ParseInt("-" + d + rest) == Negate(ParseDigits(d + rest))
  {
    ParseIntAtMinus(d + rest);
    AppendAssociative("-", d, rest);
  }

  lemma NegatedDigitsValue(d: string, rest: string)
    requires AllDigits(d) && d != []
    requires rest == [] || !IsDigit(rest[0])
    ensures Negate(ParseDigits(d + rest)) == Int(-(DigitsValue(d) as int))
  {
    ParseDigitsOfDigits(d, rest);
  }

  lemma AppendAssociative(a: string, b: string, c: string)
    ensures a + b + c == a + (b + c)
  {
  }

  /** `parseInt(String(n) + rest, 10)` is `n` whenever `rest` does not continue the digits. */
  lemma ParseIntOfIntToString(n: int, rest: string)
    requires rest == [] || !IsDigit(rest[0])
    ensures ParseInt(IntToString(n) + rest) == Int(n)
  {
    var m: nat := if n < 0 then -n else n;
    var t := NatToString(m);
    DigitsValueOfNatToString(m);
    if n < 0 {
      ParseIntOfNumeral(t, m, true, rest);
    } else {
      ParseIntOfNumeral(t, m, false, rest);
    }
  }

  /** The same, stated for any digit text `t` of value `m` with or without a minus sign. */
  lemma ParseIntOfNumeral(t: string, m: nat, negative: bool, rest: string)
    requires AllDigits(t) && t != [] && DigitsValue(t) == m
    requires rest == [] || !IsDigit(rest[0])
    ensures negative ==> ParseInt("-" + t + rest) == Int(-(m as int))
    ensures !negative ==> ParseInt(t + rest) == Int(m)
  {
    if negative {
      ParseIntOfNegatedDigits(t, rest);
    } else {
      ParseIntOfDigits(t, rest);
    }
  }

  // ---------------------------------------------------------------------------
  // Array.prototype.join
  // ---------------------------------------------------------------------------

  /** `parts.join(sep)`: the parts in order with `sep` between neighbours. */
  function Join(parts: seq<string>, sep: string): (r: string)
    ensures parts == [] ==> r == ""
    ensures |parts| == 1 ==> r == parts[0]
    ensures |parts| >= 2 ==> StartsWith(r, parts[0] + sep)
  {
    if |parts| == 0 then ""
    else if |parts| == 1 then parts[0]
    else
      var rest := Join(parts[1..], sep);
      assert (parts[0] + sep + rest)[..|parts[0] + sep|] == parts[0] + sep;
      parts[0] + sep + rest
  }

  /** Joining one more part adds the separator and that part at the end. */
  lemma {:induction false} JoinSnoc(parts: seq<string>, last: string, sep: string)
    requires parts != []
    ensures Join(parts + [last], sep) == Join(parts, sep) + sep + last
  {
    if |parts| == 1 {
      assert parts + [last] == [parts[0], last];
    } else {
      assert (parts + [last])[1..] == parts[1..] + [last];
      JoinSnoc(parts[1..], last, sep);
    }
  }
}
