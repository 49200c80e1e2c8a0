/**
 * The JavaScript string primitives the TypeScript code relies on, with the semantics of the
 * ECMAScript standard: `String.prototype.trim`, `split` on a one-character separator, `join`,
 * `parseInt` (with and without radix 10), `String(n)` for integers, and the character classes
 * `\s` and `\d` of regular expressions.
 */
module JsText {
  import opened Wrappers

  // ---------------------------------------------------------------- character classes

  /** WhiteSpace and LineTerminator code points: what `trim` strips and what `\s` matches. */
  predicate IsSpace(c: char) {
    || c == '\t' || c == '\n' || c == '\U{000B}' || c == '\U{000C}' || c == '\r' || c == ' '
    || c == '\U{00A0}' || c == '\U{1680}' || ('\U{2000}' <= c <= '\U{200A}')
    || c == '\U{2028}' || c == '\U{2029}' || c == '\U{202F}' || c == '\U{205F}'
    || c == '\U{3000}' || c == '\U{FEFF}'
  }

  /** `\d`: an ASCII decimal digit. */
  predicate IsDigit(c: char) {
    '0' <= c <= '9'
  }

  predicate AllDigits(s: string) {
    forall i :: 0 <= i < |s| ==> IsDigit(s[i])
  }

  function DigitValue(c: char): nat
    requires IsDigit(c)
  {
    c as int - '0' as int
  }

  function DigitChar(d: nat): (c: char)
    requires d < 10
    ensures IsDigit(c) && DigitValue(c) == d
  {
    ('0' as int + d) as char
  }

  // ---------------------------------------------------------------- trim

  /** The number of leading white-space characters. */
  function LeadingSpaces(s: string): (n: nat)
    ensures n <= |s|
    ensures forall k :: 0 <= k < n ==> IsSpace(s[k])
    ensures n < |s| ==> !IsSpace(s[n])
  {
    if s != [] && IsSpace(s[0]) then 1 + LeadingSpaces(s[1..]) else 0
  }

  /** The number of trailing white-space characters. */
  function TrailingSpaces(s: string): (n: nat)
    ensures n <= |s|
    ensures forall k :: |s| - n <= k < |s| ==> IsSpace(s[k])
    ensures n < |s| ==> !IsSpace(s[|s| - 1 - n])
  {
    if s != [] && IsSpace(s[|s| - 1]) then 1 + TrailingSpaces(s[..|s| - 1]) else 0
  }

  /** `s.trimStart()`. */
  function TrimStart(s: string): (r: string)
    ensures r == s[LeadingSpaces(s)..]
  {
    s[LeadingSpaces(s)..]
  }

  /** `s.trim()`: `s` without its leading and trailing white space. */
  function Trim(s: string): (r: string)
    ensures |r| <= |s|
    ensures r == [] <==> forall k :: 0 <= k < |s| ==> IsSpace(s[k])
    ensures r != [] ==> !IsSpace(r[0]) && !IsSpace(r[|r| - 1])
    ensures LeadingSpaces(s) + |r| <= |s| && r == s[LeadingSpaces(s)..LeadingSpaces(s) + |r|]
  {
    var t := TrimStart(s);
    var r := t[..|t| - TrailingSpaces(t)];
    assert r == s[LeadingSpaces(s)..LeadingSpaces(s) + |r|];
    if r == [] then
      AllSpaceWhenTrimmedEmpty(s);
      r
    else
      r
  }

  lemma AllSpaceWhenTrimmedEmpty(s: string)
    requires TrailingSpaces(TrimStart(s)) == |TrimStart(s)|
    ensures LeadingSpaces(s) == |s|
  {
  }

  /** A string with no white space at either end is its own trim. */
  lemma TrimOfTrimmed(s: string)
    requires s == [] || (!IsSpace(s[0]) && !IsSpace(s[|s| - 1]))
    ensures Trim(s) == s
  {
  }

  // ---------------------------------------------------------------- split and join

  /** `parts.join(sep)`. */
  function Join(parts: seq<string>, sep: string): string {
    if |parts| == 0 then ""
    else if |parts| == 1 then parts[0]
    else parts[0] + sep + Join(parts[1..], sep)
  }

  /** `s.split(sep)` for a one-character separator: the maximal separator-free pieces between
      occurrences of `sep`; never empty, and `join` puts them back together. */
  function Split(s: string, sep: char): (parts: seq<string>)
    ensures |parts| >= 1
    ensures forall i :: 0 <= i < |parts| ==> sep !in parts[i]
    ensures Join(parts, [sep]) == s
  {
    if s == [] then [""]
    else
      var rest := Split(s[1..], sep);
      if s[0] == sep then
        assert [s[0]] + s[1..] == s;
        [""] + rest
      else
        var r := [[s[0]] + rest[0]] + rest[1..];
        assert r[1..] == rest[1..];
        assert |rest| > 1 ==> rest == [rest[0]] + rest[1..];
        r
  }

  /** Splitting a join of separator-free pieces gives the pieces back. */
  lemma {:induction false} SplitJoin(parts: seq<string>, sep: char)
    requires |parts| >= 1
    requires forall i :: 0 <= i < |parts| ==> sep !in parts[i]
    ensures Split(Join(parts, [sep]), sep) == parts
  {
    if |parts| == 1 {
      SplitNoSeparator(parts[0], sep);
    } else {
      SplitJoin(parts[1..], sep);
      SplitPrefix(parts[0], sep, Join(parts[1..], [sep]));
    }
  }

  /** A character that is neither the separator nor in any part is not in the joined string. */
  lemma {:induction false} JoinAvoids(parts: seq<string>, sep: char, c: char)
    requires c != sep && forall i :: 0 <= i < |parts| ==> c !in parts[i]
    ensures c !in Join(parts, [sep])
  {
    if |parts| > 1 {
      JoinAvoids(parts[1..], sep, c);
    }
  }

  /** A separator-free string splits into itself. */
  lemma {:induction false} SplitNoSeparator(s: string, sep: char)
    requires sep !in s
    ensures Split(s, sep) == [s]
  {
    if s != [] {
      SplitNoSeparator(s[1..], sep);
      assert [s[0]] + s[1..] == s;
    }
  }

  /** Splitting `p + sep + t` for a separator-free `p` gives `p` followed by the pieces of `t`. */
  lemma {:induction false} SplitPrefix(p: string, sep: char, t: string)
    requires sep !in p
    ensures Split(p + [sep] + t, sep) == [p] + Split(t, sep)
  {
    if p == [] {
      assert ([sep] + t)[1..] == t;
    } else {
      SplitPrefix(p[1..], sep, t);
      assert (p + [sep] + t)[1..] == p[1..] + [sep] + t;
      assert [p[0]] + p[1..] == p;
    }
  }

  /** The number of pieces is one more than the number of separators. */
  lemma {:induction false} SplitCount(s: string, sep: char)
    ensures |Split(s, sep)| == multiset(s)[sep] + 1
  {
    if s != [] {
      SplitCount(s[1..], sep);
      assert s == [s[0]] + s[1..];
      assert multiset(s) == multiset{s[0]} + multiset(s[1..]);
    }
  }

  // ---------------------------------------------------------------- numbers and strings

  /** The value of a string of decimal digits. */
  function DigitsValue(ds: string): nat
    requires AllDigits(ds)
  {
    if ds == [] then 0 else 10 * DigitsValue(ds[..|ds| - 1]) + DigitValue(ds[|ds| - 1])
  }

  /** The decimal digits of a natural number, without leading zeros. */
  function NatToDigits(n: nat): string {
    if n < 10 then [DigitChar(n)] else NatToDigits(n / 10) + [DigitChar(n % 10)]
  }

  /** The rendering is a non-empty digit string without a leading zero whose value is `n`. */
  lemma {:induction false} NatToDigitsFacts(n: nat)
    ensures var ds := NatToDigits(n);
      && ds != [] && AllDigits(ds) && DigitsValue(ds) == n
      && (|ds| > 1 ==> ds[0] != '0')
  {
    if n >= 10 {
      NatToDigitsFacts(n / 10);
      var ds := NatToDigits(n);
      assert ds[..|ds| - 1] == NatToDigits(n / 10);
    }
  }

  /** `String(n)` / `` `${n}` `` for an integer-valued number. */
  function IntToString(n: int): string {
    if n < 0 then "-" + NatToDigits(-n) else NatToDigits(n)
  }

  /** The rendering of an integer is an optional minus sign followed by decimal digits. */
  lemma IntToStringFacts(n: int)
    ensures var s := IntToString(n);
      && s != [] && (n < 0 <==> s[0] == '-')
      && AllDigits(if n < 0 then s[1..] else s)
  {
    NatToDigitsFacts(if n < 0 then -n else n);
  }

  /** A JavaScript number as far as the modelled code uses one: an integer or `NaN`. */
  datatype JsNumber = Num(n: int) | NaN

  /** The longest prefix of `s` made of digits valid in `radix` (10 or 16). */
  function RadixDigitPrefix(s: string, radix: nat): (p: string)
    ensures |p| <= |s| && p == s[..|p|]
    ensures forall k :: 0 <= k < |p| ==> IsRadixDigit(p[k], radix)
    ensures |p| < |s| ==> !IsRadixDigit(s[|p|], radix)
  {
    if s != [] && IsRadixDigit(s[0], radix) then [s[0]] + RadixDigitPrefix(s[1..], radix) else []
  }

  predicate IsRadixDigit(c: char, radix: nat) {
    if radix == 16 then IsDigit(c) || 'a' <= c <= 'f' || 'A' <= c <= 'F' else IsDigit(c)
  }

  function RadixDigitValue(c: char): nat {
    if IsDigit(c) then DigitValue(c)
    else if 'a' <= c <= 'f' then c as int - 'a' as int + 10
    else if 'A' <= c <= 'F' then c as int - 'A' as int + 10
    else 0
  }

  function RadixValue(ds: string, radix: nat): nat {
    if ds == [] then 0 else radix * RadixValue(ds[..|ds| - 1], radix) + RadixDigitValue(ds[|ds| - 1])
  }

  /** `parseInt(s, 10)` (`decimalOnly`) or `parseInt(s)`: leading white space is skipped, one sign
      is accepted, `parseInt(s)` reads a `0x`/`0X` prefix as hexadecimal, and the longest prefix of
      valid digits is converted; no digits at all gives `NaN`. */
  function ParseInt(s: string, decimalOnly: bool): (r: JsNumber) {
    var t := TrimStart(s);
    var neg := t != [] && t[0] == '-';
    var u := if t != [] && (t[0] == '-' || t[0] == '+') then t[1..] else t;
    var hex := !decimalOnly && |u| >= 2 && u[0] == '0' && (u[1] == 'x' || u[1] == 'X');
    var radix := if hex then 16 else 10;
    var body := if hex then u[2..] else u;
    var ds := RadixDigitPrefix(body, radix);
    if ds == [] then NaN
    else
      var v: int := RadixValue(ds, radix);
      Num(if neg then -v else v)
  }

  lemma {:induction false} RadixValueDecimal(ds: string)
    requires AllDigits(ds)
    ensures RadixValue(ds, 10) == DigitsValue(ds)
  {
    if ds != [] {
      RadixValueDecimal(ds[..|ds| - 1]);
    }
  }

  /** `parseInt(ds, 10)` of a non-empty digit string is its decimal value. */
  lemma ParseIntDigits(ds: string)
    requires ds != [] && AllDigits(ds)
    ensures ParseInt(ds, true) == Num(DigitsValue(ds))
  {
    assert LeadingSpaces(ds) == 0;
    assert TrimStart(ds) == ds;
    DigitPrefixAll(ds, 10);
    RadixValueDecimal(ds);
  }

  /** Without a `0x` prefix `parseInt(ds)` reads a digit string in decimal, like `parseInt(ds, 10)`. */
  lemma ParseIntDigitsAnyRadix(ds: string)
    requires AllDigits(ds)
    ensures ParseInt(ds, false) == ParseInt(ds, true)
  {
    if ds != [] {
      assert !IsSpace(ds[0]);
    }
  }

  lemma {:induction false} DigitPrefixAll(ds: string, radix: nat)
    requires AllDigits(ds)
    ensures RadixDigitPrefix(ds, radix) == ds
  {
    if ds != [] {
      DigitPrefixAll(ds[1..], radix);
    }
  }

  /** `parseInt(String(n), 10) == n`: the round trip through the decimal rendering. */
  lemma ParseIntToString(n: int)
    ensures ParseInt(IntToString(n), true) == Num(n)
  {
    var ds := NatToDigits(if n < 0 then -n else n);
    NatToDigitsFacts(if n < 0 then -n else n);
    if n >= 0 {
      ParseIntDigits(ds);
    } else {
      var s := "-" + ds;
      assert LeadingSpaces(s) == 0;
      assert TrimStart(s)[1..] == ds;
      DigitPrefixAll(ds, 10);
      RadixValueDecimal(ds);
    }
  }

  // ---------------------------------------------------------------- regular-expression matches

  /** `s.match(/\d+/)`: the first maximal run of digits, if any. */
  function FirstDigitRun(s: string): (r: Option<string>)
    ensures r.Some? <==> exists k :: 0 <= k < |s| && IsDigit(s[k])
    ensures r.Some? ==> r.value != [] && AllDigits(r.value)
  {
    if s == [] then None
    else if IsDigit(s[0]) then Some(RadixDigitPrefix(s, 10))
    else
      assert forall k :: 1 <= k < |s| ==> s[k] == s[1..][k - 1];
      FirstDigitRun(s[1..])
  }
}
