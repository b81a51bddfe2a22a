/** The JavaScript string built-ins the core relies on, written out: `trim`,
    `startsWith`, `includes`, `split` on one character, ASCII case mapping, and the
    decimal conversions behind `Number.prototype.toString` and `parseInt`. */
module JsStrings {
  import opened Wrappers

  /** Stands for the engine-specific message of a `TypeError` the engine throws, such
      as reading a property of `undefined`. */
  const TypeErrorMessage: string := "TypeError"

  /** ECMAScript WhiteSpace and LineTerminator code points (what `trim` removes). */
  predicate IsWhitespace(c: char) {
    || c == '\t' || c == '\n' || c == '\U{000B}' || c == '\U{000C}' || c == '\r'
    || c == ' ' || c == '\U{00A0}' || c == '\U{1680}'
    || ('\U{2000}' <= c <= '\U{200A}')
    || c == '\U{2028}' || c == '\U{2029}' || c == '\U{202F}' || c == '\U{205F}'
    || c == '\U{3000}' || c == '\U{FEFF}'
  }

  predicate AllWhitespace(s: string) {
    forall k :: 0 <= k < |s| ==> IsWhitespace(s[k])
  }

  /** How many whitespace characters `s` starts with. */
  function LeadingSpace(s: string): (n: nat)
    ensures n <= |s|
    ensures forall k :: 0 <= k < n ==> IsWhitespace(s[k])
    ensures n < |s| ==> !IsWhitespace(s[n])
    decreases |s|
  {
    if s != [] && IsWhitespace(s[0]) then
      var n := LeadingSpace(s[1..]);
      assert forall k :: 1 <= k < n + 1 ==> s[k] == s[1..][k - 1];
      n + 1
    else 0
  }

  /** How many whitespace characters `s` ends with. */
  function TrailingSpace(s: string): (n: nat)
    ensures n <= |s|
    ensures forall k :: |s| - n <= k < |s| ==> IsWhitespace(s[k])
    ensures n < |s| ==> !IsWhitespace(s[|s| - n - 1])
    decreases |s|
  {
    if s != [] && IsWhitespace(s[|s| - 1]) then
      var n := TrailingSpace(s[..|s| - 1]);
      assert forall k :: |s| - 1 - n <= k < |s| - 1 ==> s[k] == s[..|s| - 1][k];
      n + 1
    else 0
  }

  /** `String.prototype.trimStart`. */
  function TrimStart(s: string): string {
    s[LeadingSpace(s)..]
  }

  /** `String.prototype.trimEnd`. */
  function TrimEnd(s: string): string {
    s[..|s| - TrailingSpace(s)]
  }

  /** `String.prototype.trim`. The result is blank exactly when the input is all
      whitespace, and otherwise starts and ends with a non-whitespace character. */
  function Trim(s: string): (r: string)
    ensures |r| <= |s|
    ensures r == [] <==> AllWhitespace(s)
    ensures r != [] ==> !IsWhitespace(r[0]) && !IsWhitespace(r[|r| - 1])
  {
    var t := TrimStart(s);
    var r := TrimEnd(t);
    TrimBlank(s);
    assert r != [] ==> r[0] == t[0] && r[|r| - 1] == t[|t| - TrailingSpace(t) - 1];
    r
  }

  lemma TrimBlank(s: string)
    ensures TrimEnd(TrimStart(s)) == [] <==> AllWhitespace(s)
  {
    var n := LeadingSpace(s);
    var t := TrimStart(s);
    assert t != [] ==> t[0] == s[n];
    if TrailingSpace(t) == |t| {
      assert n == |s|;
    }
    if AllWhitespace(s) {
      assert n == |s|;
    }
  }

  predicate StartsWith(s: string, prefix: string) {
    |prefix| <= |s| && s[..|prefix|] == prefix
  }

  /** `String.prototype.includes`. */
  predicate Includes(s: string, sub: string) {
    exists i | 0 <= i <= |s| - |sub| :: StartsWith(s[i..], sub)
  }

  /** Index of the first `c` in `s`, or `|s|` when there is none. */
  function IndexOf(s: string, c: char): (i: nat)
    ensures i <= |s|
    ensures i < |s| ==> s[i] == c
    ensures forall k :: 0 <= k < i ==> s[k] != c
    decreases |s|
  {
    if s == [] then 0
    else if s[0] == c then 0
    else 1 + IndexOf(s[1..], c)
  }

  /** `s.split(c)` for a one-character separator `c`. */
  function Split(s: string, c: char): (fields: seq<string>)
    ensures |fields| >= 1
    ensures forall k :: 0 <= k < |fields| ==> c !in fields[k]
    decreases |s|
  {
    var i := IndexOf(s, c);
    if i == |s| then [s] else [s[..i]] + Split(s[i + 1..], c)
  }

  /** `fields.join(c)`. */
  function Join(fields: seq<string>, c: char): string
    requires |fields| >= 1
  {
    if |fields| == 1 then fields[0] else fields[0] + [c] + Join(fields[1..], c)
  }

  /** Splitting loses nothing: joining the fields with the separator gives the input back. */
  lemma {:induction false} JoinSplit(s: string, c: char)
    ensures Join(Split(s, c), c) == s
    decreases |s|
  {
    var i := IndexOf(s, c);
    if i < |s| {
      var fields := Split(s, c);
      assert fields == [s[..i]] + Split(s[i + 1..], c);
      assert fields[1..] == Split(s[i + 1..], c);
      JoinSplit(s[i + 1..], c);
      assert Join(fields, c) == s[..i] + [c] + s[i + 1..];
      assert s == s[..i] + [c] + s[i + 1..];
    }
  }

  /** And conversely: fields free of the separator are recovered by splitting their join. */
  lemma {:induction false} SplitJoin(fields: seq<string>, c: char)
    requires |fields| >= 1
    requires forall k :: 0 <= k < |fields| ==> c !in fields[k]
    ensures Split(Join(fields, c), c) == fields
    decreases |fields|
  {
    var f := fields[0];
    if |fields| == 1 {
      SplitAbsent(f, c);
    } else {
      SplitAfter(f, c, Join(fields[1..], c));
      SplitJoin(fields[1..], c);
      assert fields == [f] + fields[1..];
    }
  }

  /** A text without the separator is one field. */
  lemma SplitAbsent(s: string, c: char)
    requires c !in s
    ensures Split(s, c) == [s]
  {
    IndexOfAbsent(s, c);
  }

  /** A separator-free first field is split off at the first separator. */
  lemma SplitAfter(f: string, c: char, rest: string)
    requires c !in f
    ensures Split(f + [c] + rest, c) == [f] + Split(rest, c)
  {
    var s := f + [c] + rest;
    IndexOfAfter(f, c, rest);
    assert s[..|f|] == f;
    assert s[|f| + 1..] == rest;
  }

  lemma IndexOfAbsent(s: string, c: char)
    requires c !in s
    ensures IndexOf(s, c) == |s|
  {
  }

  lemma IndexOfAfter(f: string, c: char, rest: string)
    requires c !in f
    ensures IndexOf(f + [c] + rest, c) == |f|
  {
    var s := f + [c] + rest;
    assert s[|f|] == c;
    assert forall k :: 0 <= k < |f| ==> s[k] == f[k];
  }

  function AsciiUpper(c: char): char {
    if 'a' <= c <= 'z' then (c as int - 32) as char else c
  }

  function AsciiLower(c: char): char {
    if 'A' <= c <= 'Z' then (c as int + 32) as char else c
  }

  function AsciiLowerString(s: string): (r: string)
    ensures |r| == |s|
    ensures forall k :: 0 <= k < |s| ==> r[k] == AsciiLower(s[k])
  {
    seq(|s|, k requires 0 <= k < |s| => AsciiLower(s[k]))
  }

  /** `c.repeat(n)` for a one-character string. */
  function Repeat(c: char, n: nat): (r: string)
    ensures |r| == n
    ensures forall k :: 0 <= k < n ==> r[k] == c
  {
    seq(n, _ => c)
  }

  // ---------------------------------------------------------------------------
  // Decimal text of integers and `parseInt`

  function DigitChar(d: nat): char
    requires d < 10
  {
    ('0' as int + d) as char
  }

  predicate IsDecimalDigit(c: char) {
    '0' <= c <= '9'
  }

  /** Value of a digit in base 10 or 16 (`None` when `c` is not a digit of that base). */
  function DigitValue(c: char, radix: nat): Option<nat> {
    if '0' <= c <= '9' && (c as int - '0' as int) < radix then Some(c as int - '0' as int)
    else if radix == 16 && 'a' <= c <= 'f' then Some(c as int - 'a' as int + 10)
    else if radix == 16 && 'A' <= c <= 'F' then Some(c as int - 'A' as int + 10)
    else None
  }

  /** Decimal text of a natural number, as `Number.prototype.toString` writes it. */
  function NatToString(n: nat): (s: string)
    ensures |s| >= 1
    ensures forall k :: 0 <= k < |s| ==> IsDecimalDigit(s[k])
    ensures s[0] == '0' ==> n == 0
    decreases n
  {
    if n < 10 then [DigitChar(n)] else NatToString(n / 10) + [DigitChar(n % 10)]
  }

  function IntToString(n: int): (s: string)
    ensures |s| >= 1
  {
    if n < 0 then "-" + NatToString(-n) else NatToString(n)
  }

  /** Length of the longest prefix of `s` made of digits of the radix. */
  function DigitPrefixLength(s: string, radix: nat): (n: nat)
    ensures n <= |s|
    ensures forall k :: 0 <= k < n ==> DigitValue(s[k], radix).Some?
    ensures n < |s| ==> DigitValue(s[n], radix).None?
    decreases |s|
  {
    if s != [] && DigitValue(s[0], radix).Some? then 1 + DigitPrefixLength(s[1..], radix) else 0
  }

  /** The number a string of digits denotes. */
  function DigitsValue(s: string, radix: nat): nat
    requires radix == 10 || radix == 16
    requires forall k :: 0 <= k < |s| ==> DigitValue(s[k], radix).Some?
    decreases |s|
  {
    if s == [] then 0
    else
      var high := DigitsValue(s[..|s| - 1], radix);
      (if radix == 10 then high * 10 else high * 16) + DigitValue(s[|s| - 1], radix).value
  }

  /** The value of the longest run of digits at the start of `s`; `None` when there is none. */
  function LeadingNumber(s: string, radix: nat): Option<nat>
    requires radix == 10 || radix == 16
  {
    var n := DigitPrefixLength(s, radix);
    if n == 0 then None else Some(DigitsValue(s[..n], radix))
  }

  /** `parseInt(s)` without a radix argument: leading whitespace is skipped, one sign
      is read, a `0x`/`0X` prefix switches to base 16, and the longest run of digits
      that follows gives the value. `None` stands for `NaN` (no digit at all). */
  function ParseInt(s: string): Option<int> {
    var t := TrimStart(s);
    if t != [] && t[0] == '-' then
      match ParseUnsigned(t[1..])
      case None => None
      case Some(v) => Some(-v)
    else if t != [] && t[0] == '+' then ParseUnsigned(t[1..])
    else ParseUnsigned(t)
  }

  /** The digits after the sign: hexadecimal after `0x` or `0X`, decimal otherwise. */
  function ParseUnsigned(u: string): Option<int> {
    var r := if |u| >= 2 && u[0] == '0' && (u[1] == 'x' || u[1] == 'X')
      then LeadingNumber(u[2..], 16) else LeadingNumber(u, 10);
    match r
    case None => None
    case Some(v) => Some(v)
  }

  lemma {:induction false} DigitsValueOfNatToString(n: nat)
    ensures forall k :: 0 <= k < |NatToString(n)| ==> DigitValue(NatToString(n)[k], 10).Some?
    ensures DigitsValue(NatToString(n), 10) == n
    decreases n
  {
    var s := NatToString(n);
    if n >= 10 {
      DigitsValueOfNatToString(n / 10);
      assert s[..|s| - 1] == NatToString(n / 10);
    }
  }

  /** Reading the digits of a natural number's decimal text gives the number. */
  lemma ParseNatDigits(m: nat)
    ensures LeadingNumber(NatToString(m), 10) == Some(m)
  {
    var d := NatToString(m);
    DigitsValueOfNatToString(m);
    var p := DigitPrefixLength(d, 10);
    assert p == |d|;
    assert d[..|d|] == d;
  }

  lemma UnsignedOfNatToString(m: nat)
    ensures ParseUnsigned(NatToString(m)) == Some(m)
  {
    var d := NatToString(m);
    ParseNatDigits(m);
    assert |d| >= 2 ==> d[0] != '0';
  }

  /** The decimal text of a negative number reads back through the sign branch. */
  lemma ParseNegative(m: nat)
    ensures ParseInt("-" + NatToString(m)) == Some(0 - m as int)
  {
    var d := NatToString(m);
    var s := "-" + d;
    assert s[0] == '-' && s[1..] == d;
    assert LeadingSpace(s) == 0;
    UnsignedOfNatToString(m);
  }

  /** The decimal text of a natural number reads back through the unsigned branch. */
  lemma ParseNonNegative(m: nat)
    ensures ParseInt(NatToString(m)) == Some(m)
  {
    var d := NatToString(m);
    assert IsDecimalDigit(d[0]);
    assert LeadingSpace(d) == 0;
    UnsignedOfNatToString(m);
  }

  /** `parseInt` reads back the decimal text of every integer. */
  lemma ParseIntToString(n: int)
    ensures ParseInt(IntToString(n)) == Some(n)
  {
    if n < 0 {
      ParseNegative(-n);
    } else {
      ParseNonNegative(n);
    }
  }
}
