/**
 * String helpers shared by the Python and JavaScript parts of the model:
 * decimal rendering of integers, splitting on one character, joining,
 * prefix tests, replacement of the first / every occurrence of a pattern,
 * ASCII case mapping and code-point ordering of strings.
 */
module Text {
  import opened Wrappers

  predicate IsDigit(c: char) {
    '0' <= c <= '9'
  }

  predicate AllDigits(s: string) {
    forall i :: 0 <= i < |s| ==> IsDigit(s[i])
  }

  function DigitChar(d: nat): (c: char)
    requires d < 10
    ensures IsDigit(c)
  {
    ['0', '1', '2', '3', '4', '5', '6', '7', '8', '9'][d]
  }

  function DigitValue(c: char): (d: nat)
    requires IsDigit(c)
    ensures d < 10 && DigitChar(d) == c
  {
    (c as int - '0' as int) as nat
  }

  /** Decimal notation of a natural number, without leading zeros. */
  function NatToString(n: nat): (s: string)
    ensures |s| > 0 && AllDigits(s)
    ensures |s| > 1 ==> s[0] != '0'
    decreases n
  {
    if n < 10 then [DigitChar(n)]
    else NatToString(n / 10) + [DigitChar(n % 10)]
  }

  /** Value of a non-empty string of decimal digits. */
  function DigitsValue(s: string): (n: nat)
    requires AllDigits(s)
    decreases |s|
  {
    if |s| == 0 then 0
    else DigitsValue(s[..|s| - 1]) * 10 + DigitValue(s[|s| - 1])
  }

  lemma {:induction false} DigitsValueOfNatToString(n: nat)
    ensures DigitsValue(NatToString(n)) == n
    decreases n
  {
    var s := NatToString(n);
    if n >= 10 {
      DigitsValueOfNatToString(n / 10);
      assert s[..|s| - 1] == NatToString(n / 10);
    }
  }

  lemma NatToStringInjective(a: nat, b: nat)
    requires NatToString(a) == NatToString(b)
    ensures a == b
  {
    DigitsValueOfNatToString(a);
    DigitsValueOfNatToString(b);
  }

  /** Decimal notation of an integer, with a leading '-' when negative (Python `str`, JavaScript template). */
  function IntToString(i: int): (s: string)
    ensures |s| > 0
    ensures i >= 0 ==> s == NatToString(i)
    ensures i < 0 ==> s == "-" + NatToString(-i)
  {
    if i >= 0 then NatToString(i) else "-" + NatToString(-i)
  }

  lemma IntToStringInjective(a: int, b: int)
    requires IntToString(a) == IntToString(b)
    ensures a == b
  {
    if a >= 0 && b >= 0 {
      NatToStringInjective(a, b);
    } else if a < 0 && b < 0 {
      assert NatToString(-a) == IntToString(a)[1..];
      NatToStringInjective(-a, -b);
    }
  }

  predicate StartsWith(s: string, prefix: string) {
    |prefix| <= |s| && s[..|prefix|] == prefix
  }

  /** Split on every occurrence of `sep` (Python `str.split(sep)`, JavaScript `String.split(sep)`). */
  function Split(s: string, sep: char): (parts: seq<string>)
    ensures |parts| > 0
    ensures forall k :: 0 <= k < |parts| ==> sep !in parts[k]
    decreases |s|
  {
    if sep !in s then [s]
    else
      var i := IndexOf(s, sep);
      [s[..i]] + Split(s[i + 1..], sep)
  }

  /** Position of the first occurrence of `c` in `s`. */
  function IndexOf(s: string, c: char): (i: nat)
    requires c in s
    ensures i < |s| && s[i] == c && c !in s[..i]
  {
    if s[0] == c then 0 else IndexOf(s[1..], c) + 1
  }

  lemma SplitNoSep(s: string, sep: char)
    requires sep !in s
    ensures Split(s, sep) == [s]
  {
  }

  lemma SplitCons(a: string, sep: char, b: string)
    requires sep !in a
    ensures Split(a + [sep] + b, sep) == [a] + Split(b, sep)
  {
    var s := a + [sep] + b;
    assert s[|a|] == sep;
    var i := IndexOf(s, sep);
    assert s[..i] == a;
    assert s[i + 1..] == b;
  }

  /** Every character of a part of `Split(s, sep)` occurs in `s`. */
  lemma {:induction false} SplitPartChars(s: string, sep: char)
    ensures forall k, c :: 0 <= k < |Split(s, sep)| && c in Split(s, sep)[k] ==> c in s
    decreases |s|
  {
    if sep in s {
      var i := IndexOf(s, sep);
      SplitPartChars(s[i + 1..], sep);
      forall k, c | 0 <= k < |Split(s, sep)| && c in Split(s, sep)[k]
        ensures c in s
      {
        if k == 0 {
          assert c in s[..i];
        } else {
          assert Split(s, sep)[k] == Split(s[i + 1..], sep)[k - 1];
          assert c in s[i + 1..];
        }
      }
    }
  }

  /** Concatenation of `parts` with `sep` between neighbours (Python `sep.join`, JavaScript `Array.join`). */
  function Join(parts: seq<string>, sep: string): (s: string)
    ensures |parts| == 1 ==> s == parts[0]
  {
    if |parts| == 0 then ""
    else if |parts| == 1 then parts[0]
    else parts[0] + sep + Join(parts[1..], sep)
  }

  /** Every character of `Join(parts, sep)` occurs in `sep` or in one of the parts. */
  lemma {:induction false} JoinChars(parts: seq<string>, sep: string, c: char)
    requires c in Join(parts, sep)
    ensures c in sep || exists k :: 0 <= k < |parts| && c in parts[k]
    decreases |parts|
  {
    if |parts| > 1 {
      var rest := Join(parts[1..], sep);
      assert Join(parts, sep) == parts[0] + sep + rest;
      if c in rest {
        JoinChars(parts[1..], sep, c);
        if c !in sep {
          var k :| 0 <= k < |parts[1..]| && c in parts[1..][k];
          assert c in parts[k + 1];
        }
      }
    }
  }

  lemma {:induction false} SplitJoin(parts: seq<string>, sep: char)
    requires |parts| > 0
    requires forall k :: 0 <= k < |parts| ==> sep !in parts[k]
    ensures Split(Join(parts, [sep]), sep) == parts
  {
    if |parts| == 1 {
      SplitNoSep(parts[0], sep);
    } else {
      SplitJoin(parts[1..], sep);
      SplitCons(parts[0], sep, Join(parts[1..], [sep]));
      assert parts[0] + [sep] + Join(parts[1..], [sep]) == Join(parts, [sep]);
    }
  }

  predicate OccursAt(s: string, pat: string, j: int) {
    0 <= j && j + |pat| <= |s| && s[j..j + |pat|] == pat
  }

  /** Position of the first occurrence of `pat` in `s` at or after `start`, or -1. */
  function FindFrom(s: string, pat: string, start: nat): (r: int)
    ensures r == -1 || (start <= r && OccursAt(s, pat, r))
    ensures r >= 0 ==> forall j :: start <= j < r ==> !OccursAt(s, pat, j)
    ensures r == -1 ==> forall j :: start <= j ==> !OccursAt(s, pat, j)
    decreases |s| - start
  {
    if start + |pat| > |s| then -1
    else if OccursAt(s, pat, start) then start
    else FindFrom(s, pat, start + 1)
  }

  /** Position of the first occurrence of `pat` in `s`, or -1. */
  function Find(s: string, pat: string): (r: int)
    ensures r == -1 || OccursAt(s, pat, r)
    ensures r >= 0 ==> forall j :: 0 <= j < r ==> !OccursAt(s, pat, j)
    ensures r == -1 ==> forall j :: 0 <= j ==> !OccursAt(s, pat, j)
  {
    FindFrom(s, pat, 0)
  }

  /** JavaScript `s.replace(pat, rep)` with a string pattern: only the first occurrence is replaced. */
  function ReplaceFirst(s: string, pat: string, rep: string): (r: string)
    ensures Find(s, pat) == -1 ==> r == s
    ensures StartsWith(s, pat) ==> r == rep + s[|pat|..]
  {
    var i := Find(s, pat);
    if i == -1 then s else s[..i] + rep + s[i + |pat|..]
  }

  /** Python `s.replace(pat, rep)`: every non-overlapping occurrence, left to right. */
  function ReplaceAll(s: string, pat: string, rep: string): (r: string)
    requires |pat| > 0
    ensures Find(s, pat) == -1 ==> r == s
    decreases |s|
  {
    var i := Find(s, pat);
    if i == -1 then s else s[..i] + rep + ReplaceAll(s[i + |pat|..], pat, rep)
  }

  /** The same replacement for a one-character pattern and replacement. */
  function ReplaceChar(s: string, pat: char, rep: char): (r: string)
    ensures |r| == |s|
    ensures forall i :: 0 <= i < |s| ==> r[i] == (if s[i] == pat then rep else s[i])
  {
    seq(|s|, i requires 0 <= i < |s| => if s[i] == pat then rep else s[i])
  }

  function LowerChar(c: char): char {
    if 'A' <= c <= 'Z' then (c as int + 32) as char else c
  }

  function UpperChar(c: char): char {
    if 'a' <= c <= 'z' then (c as int - 32) as char else c
  }

  function Lower(s: string): (r: string)
    ensures |r| == |s|
    ensures forall i :: 0 <= i < |s| ==> r[i] == LowerChar(s[i])
  {
    seq(|s|, i requires 0 <= i < |s| => LowerChar(s[i]))
  }

  /** Python `str.capitalize`: first character upper case, the rest lower case. */
  function Capitalize(s: string): (r: string)
    ensures |r| == |s|
    ensures |s| > 0 ==> r[0] == UpperChar(s[0]) && r[1..] == Lower(s[1..])
  {
    if |s| == 0 then "" else [UpperChar(s[0])] + Lower(s[1..])
  }

  /** Code-point ordering of strings (Python `<` on `str`). */
  predicate LexLess(a: string, b: string)
    decreases |a|
  {
    if |a| == 0 then |b| > 0
    else if |b| == 0 then false
    else if a[0] != b[0] then a[0] < b[0]
    else LexLess(a[1..], b[1..])
  }

  lemma {:induction false} LexLessIrreflexive(a: string)
    ensures !LexLess(a, a)
    decreases |a|
  {
    if |a| > 0 {
      LexLessIrreflexive(a[1..]);
    }
  }

  lemma {:induction false} LexLessTotal(a: string, b: string)
    ensures a == b || LexLess(a, b) || LexLess(b, a)
    decreases |a|
  {
    if |a| > 0 && |b| > 0 && a[0] == b[0] {
      LexLessTotal(a[1..], b[1..]);
      if a[1..] == b[1..] {
        assert a == [a[0]] + a[1..] && b == [b[0]] + b[1..];
      }
    }
  }

  lemma {:induction false} LexLessAsymmetric(a: string, b: string)
    requires LexLess(a, b)
    ensures !LexLess(b, a)
    decreases |a|
  {
    if |a| > 0 && |b| > 0 && a[0] == b[0] {
      LexLessAsymmetric(a[1..], b[1..]);
    }
  }

  lemma {:induction false} LexLessTransitive(a: string, b: string, c: string)
    requires LexLess(a, b) && LexLess(b, c)
    ensures LexLess(a, c)
    decreases |a|
  {
    if |a| > 0 && |b| > 0 && |c| > 0 && a[0] == b[0] && b[0] == c[0] {
      LexLessTransitive(a[1..], b[1..], c[1..]);
    }
  }

  // ---------------------------------------------------------------------
  // Python `int(text)` on a string.
  // ---------------------------------------------------------------------

  /** Separators both languages treat as white space: the Unicode space separators and the line and paragraph separators. */
  predicate IsUnicodeSpace(c: char) {
    c as int == 0xA0 || c as int == 0x1680 || 0x2000 <= c as int <= 0x200A || c as int == 0x2028
    || c as int == 0x2029 || c as int == 0x202F || c as int == 0x205F || c as int == 0x3000
  }

  /** The characters Python's `str.strip()` and `int()` treat as white space (`str.isspace`). */
  predicate IsPyWhitespace(c: char) {
    c == ' ' || c == '\t' || c == '\n' || c == '\r' || c as int == 11 || c as int == 12
    || 0x1C <= c as int <= 0x1F || c as int == 0x85 || IsUnicodeSpace(c)
  }

  /** The characters `Number.parseInt` skips first: ECMAScript's white space and line terminators. */
  predicate IsJsWhitespace(c: char) {
    c == ' ' || c == '\t' || c == '\n' || c == '\r' || c as int == 11 || c as int == 12
    || c as int == 0xFEFF || IsUnicodeSpace(c)
  }

  /** The string with its leading JavaScript white space removed. */
  function JsTrimStart(s: string): (r: string)
    ensures |r| <= |s| && (|r| > 0 ==> !IsJsWhitespace(r[0]))
    ensures r == s[|s| - |r|..]
  {
    if |s| > 0 && IsJsWhitespace(s[0]) then JsTrimStart(s[1..]) else s
  }

  function TrimStart(s: string): (r: string)
    ensures |r| <= |s| && (|r| > 0 ==> !IsPyWhitespace(r[0]))
  {
    if |s| > 0 && IsPyWhitespace(s[0]) then TrimStart(s[1..]) else s
  }

  function TrimEnd(s: string): (r: string)
    ensures |r| <= |s| && (|r| > 0 ==> !IsPyWhitespace(r[|r| - 1]))
  {
    if |s| > 0 && IsPyWhitespace(s[|s| - 1]) then TrimEnd(s[..|s| - 1]) else s
  }

  /** Python `str.strip()`. */
  function Trim(s: string): string {
    TrimEnd(TrimStart(s))
  }

  /** Digits, optionally separated by single underscores, starting and ending with a digit. */
  predicate IsDigitGroups(s: string) {
    && |s| > 0 && IsDigit(s[0]) && IsDigit(s[|s| - 1])
    && (forall i :: 0 <= i < |s| ==> IsDigit(s[i]) || s[i] == '_')
    && (forall i :: 0 <= i < |s| - 1 ==> s[i] == '_' ==> s[i + 1] != '_')
  }

  function RemoveUnderscores(s: string): (r: string)
    requires forall i :: 0 <= i < |s| ==> IsDigit(s[i]) || s[i] == '_'
    ensures AllDigits(r)
    ensures AllDigits(s) ==> r == s
  {
    if |s| == 0 then ""
    else (if s[0] == '_' then "" else [s[0]]) + RemoveUnderscores(s[1..])
  }

  /**
   * Python `int(text)` for ASCII input: surrounding white space, an optional
   * sign, then decimal digits with optional single underscores between them.
   * None models the `ValueError` raised for anything else.
   */
  function ParsePyInt(s: string): (r: Option<int>)
  {
    var t := Trim(s);
    if |t| == 0 then None
    else
      var body := if t[0] == '-' || t[0] == '+' then t[1..] else t;
      if !IsDigitGroups(body) then None
      else
        var n: int := DigitsValue(RemoveUnderscores(body));
        Some(if t[0] == '-' then -n else n)
  }

  lemma TrimOfNoWhitespace(s: string)
    requires forall i :: 0 <= i < |s| ==> !IsPyWhitespace(s[i])
    ensures Trim(s) == s
  {
  }

  /** `int(str(n)) == n`: Python's integer parser reads back the decimal rendering of an integer. */
  lemma ParsePyIntOfIntToString(n: int)
    ensures ParsePyInt(IntToString(n)) == Some(n)
  {
    var s := IntToString(n);
    var m: nat := if n >= 0 then n else -n;
    var digits := NatToString(m);
    assert forall i :: 0 <= i < |s| ==> !IsPyWhitespace(s[i]);
    TrimOfNoWhitespace(s);
    var body := if s[0] == '-' || s[0] == '+' then s[1..] else s;
    assert body == digits by {
      if n >= 0 {
        assert IsDigit(s[0]);
      } else {
        assert s == "-" + digits;
      }
    }
    assert IsDigitGroups(body);
    assert RemoveUnderscores(body) == digits;
    DigitsValueOfNatToString(m);
  }

  // ---------------------------------------------------------------------
  // JavaScript numbers

  /** A JavaScript number as `Number.parseInt` produces it. */
  datatype JsNumber = Int(n: int) | NaN

  /** The longest run of decimal digits at the start of `s`. */
  function DigitPrefix(s: string): (d: string)
    ensures |d| <= |s| && d == s[..|d|] && AllDigits(d)
    ensures |d| < |s| ==> !IsDigit(s[|d|])
  {
    if |s| > 0 && IsDigit(s[0]) then [s[0]] + DigitPrefix(s[1..]) else ""
  }

  predicate IsHexDigit(c: char) {
    IsDigit(c) || 'a' <= c <= 'f' || 'A' <= c <= 'F'
  }

  function HexDigitValue(c: char): (v: nat)
    requires IsHexDigit(c)
    ensures v < 16
  {
    if IsDigit(c) then c as int - '0' as int
    else if 'a' <= c <= 'f' then c as int - 'a' as int + 10
    else c as int - 'A' as int + 10
  }

  /** The longest prefix of `s` made of hexadecimal digits. */
  function HexDigitPrefix(s: string): (d: string)
    ensures |d| <= |s| && d == s[..|d|]
    ensures forall i :: 0 <= i < |d| ==> IsHexDigit(d[i])
    ensures |d| < |s| ==> !IsHexDigit(s[|d|])
  {
    if |s| > 0 && IsHexDigit(s[0]) then [s[0]] + HexDigitPrefix(s[1..]) else ""
  }

  /** The value of a string of hexadecimal digits, most significant first. */
  function HexValue(s: string): nat
    requires forall i :: 0 <= i < |s| ==> IsHexDigit(s[i])
    decreases |s|
  {
    if |s| == 0 then 0
    else HexValue(s[..|s| - 1]) * 16 + HexDigitValue(s[|s| - 1])
  }

  /** After the sign, `0x` or `0X` switches `Number.parseInt` to base 16. */
  predicate HasHexPrefix(body: string) {
    |body| >= 2 && body[0] == '0' && (body[1] == 'x' || body[1] == 'X')
  }

  /** The number read from the hexadecimal digits that start `rest`; NaN without any. */
  function ParseJsHex(rest: string, negative: bool): JsNumber {
    var digits := HexDigitPrefix(rest);
    if |digits| == 0 then NaN
    else
      var v: int := HexValue(digits);
      Int(if negative then -v else v)
  }

  /** The number read from the decimal digits that start `body`; NaN without any. */
  function ParseJsDecimal(body: string, negative: bool): JsNumber {
    var digits := DigitPrefix(body);
    if |digits| == 0 then NaN
    else
      var v: int := DigitsValue(digits);
      Int(if negative then -v else v)
  }

  /** The number read from `body`, what follows the sign: hexadecimal after `0x`, decimal otherwise. */
  function ParseJsDigits(body: string, negative: bool): JsNumber {
    if HasHexPrefix(body) then ParseJsHex(body[2..], negative) else ParseJsDecimal(body, negative)
  }

  /**
   * `Number.parseInt(s)` with no radix: leading blanks, an optional sign,
   * then the leading hexadecimal digits after a `0x` prefix or the leading
   * decimal digits otherwise; NaN without any.
   */
  function ParseJsInt(s: string): JsNumber {
    var t := JsTrimStart(s);
    var negative := |t| > 0 && t[0] == '-';
    ParseJsDigits(if |t| > 0 && (t[0] == '-' || t[0] == '+') then t[1..] else t, negative)
  }

  /** A `0x` prefix reads the rest in base 16. */
  lemma ParseJsIntHex()
    ensures ParseJsInt("0x1A") == Int(26)
  {
    assert !IsJsWhitespace('0');
    assert JsTrimStart("0x1A") == "0x1A";
    assert HasHexPrefix("0x1A") && "0x1A"[2..] == "1A";
    assert "1A"[1..] == "A";
    assert HexDigitPrefix("A") == "A";
    assert HexDigitPrefix("1A") == "1A";
    assert "1A"[..1] == "1";
    assert HexValue("1") == 1;
    assert HexValue("1A") == HexValue("1") * 16 + 10;
    assert ParseJsHex("1A", false) == Int(26);
  }

  /** A prefix without hexadecimal digits is not a number. */
  lemma ParseJsIntBareHexPrefix()
    ensures ParseJsInt("0x") == NaN
  {
    assert JsTrimStart("0x") == "0x";
    assert "0x"[2..] == "";
  }

  lemma {:induction false} DigitPrefixOfDigits(s: string)
    requires AllDigits(s)
    ensures DigitPrefix(s) == s
    decreases |s|
  {
    if |s| > 0 {
      DigitPrefixOfDigits(s[1..]);
    }
  }

  lemma DigitsNotHexPrefix(digits: string)
    requires AllDigits(digits)
    ensures !HasHexPrefix(digits)
  {
    if |digits| >= 2 {
      assert IsDigit(digits[1]);
    }
  }

  lemma ParseJsDecimalOfPrefix(body: string, digits: string, negative: bool)
    requires DigitPrefix(body) == digits && |digits| > 0
    ensures AllDigits(digits)
    ensures var v: int := DigitsValue(digits); ParseJsDecimal(body, negative) == Int(if negative then -v else v)
  {
  }

  lemma ParseJsDigitsDecimal(body: string, negative: bool)
    requires !HasHexPrefix(body)
    ensures ParseJsDigits(body, negative) == ParseJsDecimal(body, negative)
  {
  }

  /** Decimal digits after the sign are read as they are. */
  lemma ParseJsDigitsOfDigits(digits: string, negative: bool)
    requires |digits| > 0 && AllDigits(digits)
    ensures var v: int := DigitsValue(digits); ParseJsDigits(digits, negative) == Int(if negative then -v else v)
  {
    DigitsNotHexPrefix(digits);
    ParseJsDigitsDecimal(digits, negative);
    DigitPrefixOfDigits(digits);
    ParseJsDecimalOfPrefix(digits, digits, negative);
  }

  /** `parseInt` reads back the decimal rendering of any integer. */
  lemma ParseJsIntOfIntToString(n: int)
    ensures ParseJsInt(IntToString(n)) == Int(n)
  {
    var s := IntToString(n);
    var m: nat := if n >= 0 then n else -n;
    var digits := NatToString(m);
    assert !IsJsWhitespace(s[0]) by {
      if n >= 0 {
        assert IsDigit(s[0]);
      }
    }
    assert JsTrimStart(s) == s;
    DigitsValueOfNatToString(m);
    if n >= 0 {
      assert s == digits && s[0] != '-' && s[0] != '+';
      ParseJsDigitsOfDigits(digits, false);
    } else {
      assert s[0] == '-' && s[1..] == digits;
      ParseJsDigitsOfDigits(digits, true);
    }
  }
}
