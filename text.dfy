/**
 * Character classes and string helpers shared by the JavaScript and Python
 * code: ASCII case mapping, the two languages' notions of whitespace,
 * `strip`/`trim`, `split`, decimal printing and JavaScript's `parseInt(s, 10)`.
 *
 * Only ASCII behaviour is modelled. Case mapping touches `A`..`Z` alone, and a
 * non-ASCII character is neither a letter, a digit nor whitespace here.
 */
module Text {
  import opened Wrappers

  /** The two runtimes whose whitespace rules differ. */
  datatype Dialect = JS | Python

  predicate IsDigit(c: char) { '0' <= c <= '9' }
  predicate IsLowerLetter(c: char) { 'a' <= c <= 'z' }
  predicate IsUpperLetter(c: char) { 'A' <= c <= 'Z' }
  predicate IsLetter(c: char) { IsLowerLetter(c) || IsUpperLetter(c) }

  /** ASCII members of JavaScript's `\s` class (also what `trim` and `parseInt` skip). */
  predicate IsJsSpace(c: char) { c == ' ' || 9 <= c as int <= 13 }

  /** ASCII members of Python's `\s` / `str.isspace`: JavaScript's set plus the separators 0x1c..0x1f. */
  predicate IsPySpace(c: char) { IsJsSpace(c) || 0x1c <= c as int <= 0x1f }

  predicate IsSpace(d: Dialect, c: char) {
    match d
    case JS => IsJsSpace(c)
    case Python => IsPySpace(c)
  }

  function ToLower(c: char): (r: char)
    ensures IsUpperLetter(c) ==> IsLowerLetter(r) && r as int == c as int + 32
    ensures !IsUpperLetter(c) ==> r == c
  {
    if IsUpperLetter(c) then (c as int + 32) as char else c
  }

  function ToUpper(c: char): (r: char)
    ensures IsLowerLetter(c) ==> IsUpperLetter(r) && r as int == c as int - 32
    ensures !IsLowerLetter(c) ==> r == c
  {
    if IsLowerLetter(c) then (c as int - 32) as char else c
  }

  /** `toLowerCase()` / `lower()` on ASCII. */
  function Lower(s: string): (r: string)
    ensures |r| == |s|
    ensures forall i :: 0 <= i < |s| ==> r[i] == ToLower(s[i])
  {
    if s == [] then [] else [ToLower(s[0])] + Lower(s[1..])
  }

  /** Drops leading whitespace of the given dialect. */
  function TrimStart(d: Dialect, s: string): (r: string)
    ensures |r| <= |s| && r == s[|s| - |r|..]
    ensures r == [] || !IsSpace(d, r[0])
    ensures forall i :: 0 <= i < |s| - |r| ==> IsSpace(d, s[i])
  {
    if s != [] && IsSpace(d, s[0]) then TrimStart(d, s[1..]) else s
  }

  /** Drops trailing whitespace of the given dialect. */
  function TrimEnd(d: Dialect, s: string): (r: string)
    ensures |r| <= |s| && r == s[..|r|]
    ensures r == [] || !IsSpace(d, r[|r| - 1])
    ensures forall i :: |r| <= i < |s| ==> IsSpace(d, s[i])
  {
    if s != [] && IsSpace(d, s[|s| - 1]) then TrimEnd(d, s[..|s| - 1]) else s
  }

  /** JavaScript `trim()` or Python `strip()`, depending on the dialect. */
  function Strip(d: Dialect, s: string): string {
    TrimEnd(d, TrimStart(d, s))
  }

  /** Stripping changes nothing when there is no whitespace at either end. */
  lemma StripUnchanged(d: Dialect, s: string)
    requires s == [] || (!IsSpace(d, s[0]) && !IsSpace(d, s[|s| - 1]))
    ensures Strip(d, s) == s
  {
  }

  /** A stripped string has no whitespace at either end. */
  lemma StripTrims(d: Dialect, s: string)
    ensures var r := Strip(d, s); r == [] || (!IsSpace(d, r[0]) && !IsSpace(d, r[|r| - 1]))
  {
    var t := TrimStart(d, s);
    var r := TrimEnd(d, t);
    if r != [] {
      assert r[0] == t[0];
    }
  }

  /** The pieces of `s` between separators, empty pieces included: `s.split(sep)`. */
  function SplitBy(s: string, isSep: char -> bool): (r: seq<string>)
    ensures |r| > 0
    ensures forall k, i :: 0 <= k < |r| && 0 <= i < |r[k]| ==> !isSep(r[k][i])
    decreases |s|
  {
    if s == [] then [""]
    else
      var rest := SplitBy(s[1..], isSep);
      if isSep(s[0]) then [""] + rest
      else [[s[0]] + rest[0]] + rest[1..]
  }

  /** The non-empty members of a sequence of strings, in order: `.filter(Boolean)`. */
  function NonEmpty(parts: seq<string>): (r: seq<string>)
    ensures |r| <= |parts|
    ensures forall k :: 0 <= k < |r| ==> r[k] != [] && r[k] in parts
    ensures forall p :: p in parts && p != [] ==> p in r
  {
    if parts == [] then []
    else
      assert parts == [parts[0]] + parts[1..];
      if parts[0] == [] then NonEmpty(parts[1..])
      else [parts[0]] + NonEmpty(parts[1..])
  }

  /** A piece with no separator splits to itself. */
  lemma {:induction false} SplitNoSep(s: string, isSep: char -> bool)
    requires forall i :: 0 <= i < |s| ==> !isSep(s[i])
    ensures SplitBy(s, isSep) == [s]
  {
    if s != [] {
      SplitNoSep(s[1..], isSep);
      assert [s[0]] + s[1..] == s;
    }
  }

  /** Splitting `a + [sep] + b` yields `a` followed by the pieces of `b`. */
  lemma {:induction false} SplitAfterPiece(a: string, c: char, b: string, isSep: char -> bool)
    requires forall i :: 0 <= i < |a| ==> !isSep(a[i])
    requires isSep(c)
    ensures SplitBy(a + [c] + b, isSep) == [a] + SplitBy(b, isSep)
  {
    if a == [] {
      assert a + [c] + b == [c] + b;
      assert ([c] + b)[1..] == b;
    } else {
      SplitAfterPiece(a[1..], c, b, isSep);
      assert (a + [c] + b)[1..] == a[1..] + [c] + b;
      assert [a[0]] + a[1..] == a;
    }
  }

  /** A separator at the end adds one empty piece at the end. */
  lemma {:induction false} SplitSnocSep(s: string, c: char, isSep: char -> bool)
    requires isSep(c)
    ensures SplitBy(s + [c], isSep) == SplitBy(s, isSep) + [""]
    decreases |s|
  {
    if s == [] {
      assert [c][1..] == [];
    } else {
      assert (s + [c])[1..] == s[1..] + [c];
      SplitSnocSep(s[1..], c, isSep);
    }
  }

  lemma NonEmptyAppend(p: seq<string>, q: seq<string>)
    ensures NonEmpty(p + q) == NonEmpty(p) + NonEmpty(q)
  {
    if p == [] {
      assert p + q == q;
    } else {
      assert (p + q)[0] == p[0];
      assert (p + q)[1..] == p[1..] + q;
      NonEmptyAppend(p[1..], q);
    }
  }

  // ---------------------------------------------------------------------
  // Decimal numbers

  function DigitChar(d: nat): (c: char)
    requires d < 10
    ensures IsDigit(c) && c as int - '0' as int == d
  {
    ('0' as int + d) as char
  }

  /** `String(n)` / `str(n)` / a template-literal `${n}` for a natural number. */
  function NatToDecimal(n: nat): (r: string)
    ensures |r| > 0
    ensures forall i :: 0 <= i < |r| ==> IsDigit(r[i])
  {
    if n < 10 then [DigitChar(n)] else NatToDecimal(n / 10) + [DigitChar(n % 10)]
  }

  /** The value of a string of decimal digits, read left to right. */
  function DigitsValue(s: string): nat
    requires forall i :: 0 <= i < |s| ==> IsDigit(s[i])
  {
    if s == [] then 0
    else
      assert IsDigit(s[|s| - 1]);
      10 * DigitsValue(s[..|s| - 1]) + (s[|s| - 1] as int - '0' as int)
  }

  /** The longest prefix of `s` made of decimal digits. */
  function DigitPrefix(s: string): (r: string)
    ensures |r| <= |s| && r == s[..|r|]
    ensures forall i :: 0 <= i < |r| ==> IsDigit(r[i])
    ensures |r| < |s| ==> !IsDigit(s[|r|])
  {
    if s != [] && IsDigit(s[0]) then [s[0]] + DigitPrefix(s[1..]) else []
  }

  /**
   * JavaScript's `parseInt(s, 10)`: leading whitespace is skipped, one optional
   * sign is read, then the longest run of digits; `None` stands for `NaN`
   * (no digit at all). Anything after the digits is ignored.
   */
  function ParseInt(s: string): (r: Option<int>)
    ensures r.Some? ==> s != []
  {
    var t := TrimStart(JS, s);
    var negative := t != [] && t[0] == '-';
    var body := if t != [] && (t[0] == '-' || t[0] == '+') then t[1..] else t;
    var digits := DigitPrefix(body);
    if digits == [] then None
    else Some(if negative then -(DigitsValue(digits) as int) else DigitsValue(digits))
  }

  lemma {:induction false} DigitsOfDecimal(n: nat)
    ensures DigitsValue(NatToDecimal(n)) == n
  {
    if n >= 10 {
      DigitsOfDecimal(n / 10);
      var r := NatToDecimal(n);
      assert r[..|r| - 1] == NatToDecimal(n / 10);
    }
  }

  lemma {:induction false} DigitPrefixAll(s: string, rest: string)
    requires forall i :: 0 <= i < |s| ==> IsDigit(s[i])
    requires rest == [] || !IsDigit(rest[0])
    ensures DigitPrefix(s + rest) == s
  {
    if s != [] {
      assert (s + rest)[1..] == s[1..] + rest;
      DigitPrefixAll(s[1..], rest);
    } else {
      assert s + rest == rest;
    }
  }

  /**
   * Printing a natural number and reading it back with `parseInt` is the
   * identity, even with trailing non-digits (`"2024abc"` reads as 2024).
   */
  lemma ParseIntOfDecimal(n: nat, rest: string)
    requires rest == [] || !IsDigit(rest[0])
    ensures ParseInt(NatToDecimal(n) + rest) == Some(n)
  {
    var d := NatToDecimal(n);
    assert (d + rest)[0] == d[0];
    ParseIntAtDigit(d + rest);
    DigitPrefixAll(d, rest);
    DigitsOfDecimal(n);
  }

  /** A string that starts with a digit reads as the value of its leading digits. */
  lemma ParseIntAtDigit(s: string)
    requires s != [] && IsDigit(s[0])
    ensures DigitPrefix(s) != [] && ParseInt(s) == Some(DigitsValue(DigitPrefix(s)) as int)
  {
    assert TrimStart(JS, s) == s;
  }

  /** A segment whose first non-blank character is neither a sign nor a digit is `NaN`. */
  lemma ParseIntNaN(s: string)
    requires var t := TrimStart(JS, s);
             t == [] || (!IsDigit(t[0]) && t[0] != '-' && t[0] != '+')
    ensures ParseInt(s) == None
  {
  }

  lemma {:induction false} DecimalInjective(m: nat, n: nat)
    requires NatToDecimal(m) == NatToDecimal(n)
    ensures m == n
  {
    DigitsOfDecimal(m);
    DigitsOfDecimal(n);
  }
}
