/** The JavaScript string built-ins the application relies on (trim, includes,
    toLowerCase, split, join, startsWith, replace, parseInt), written out over
    `seq<char>`. */
module JsString {
  import opened Wrappers

  /** The WhiteSpace and LineTerminator code points of ECMAScript: the
      characters `trim` removes and `parseInt` skips. */
  predicate IsSpace(c: char) {
    || c == '\t' || c == '\n' || c == '\U{B}' || c == '\U{C}' || c == '\r' || c == ' '
    || c == '\U{A0}' || c == '\U{1680}' || ('\U{2000}' <= c <= '\U{200A}')
    || c == '\U{2028}' || c == '\U{2029}' || c == '\U{202F}' || c == '\U{205F}'
    || c == '\U{3000}' || c == '\U{FEFF}'
  }

  predicate AllSpace(s: string) {
    forall k :: 0 <= k < |s| ==> IsSpace(s[k])
  }

  /** A string with no white space at either end: what `trim` leaves. */
  predicate Trimmed(s: string) {
    |s| == 0 || (!IsSpace(s[0]) && !IsSpace(s[|s| - 1]))
  }

  /** Number of white-space characters at the start of `s`. */
  function LeadingSpaces(s: string): (n: nat)
    ensures n <= |s|
    ensures AllSpace(s[..n])
    ensures n < |s| ==> !IsSpace(s[n])
  {
    if |s| > 0 && IsSpace(s[0]) then
      var n' := LeadingSpaces(s[1..]);
      assert s[1..][..n'] == s[1..n' + 1];
      1 + n'
    else 0
  }

  /** Number of white-space characters at the end of `s`. */
  function TrailingSpaces(s: string): (n: nat)
    ensures n <= |s|
    ensures AllSpace(s[|s| - n..])
    ensures n < |s| ==> !IsSpace(s[|s| - 1 - n])
  {
    if |s| > 0 && IsSpace(s[|s| - 1]) then
      var n' := TrailingSpaces(s[..|s| - 1]);
      assert s[..|s| - 1][|s| - 1 - n'..] == s[|s| - 1 - n'..|s| - 1];
      1 + n'
    else 0
  }

  /** `String.prototype.trimStart`. */
  function TrimStart(s: string): (r: string)
    ensures |r| <= |s| && r == s[|s| - |r|..]
    ensures AllSpace(s[..|s| - |r|])
    ensures |r| > 0 ==> !IsSpace(r[0])
  {
    s[LeadingSpaces(s)..]
  }

  /** `String.prototype.trim`: `s` without the white space at both ends. */
  function Trim(s: string): (r: string)
    ensures Trimmed(r)
    ensures exists i :: TrimmedAt(s, r, i)
  {
    var a := s[LeadingSpaces(s)..];
    var r := a[..|a| - TrailingSpaces(a)];
    assert TrimmedAt(s, r, LeadingSpaces(s)) by {
      assert s[LeadingSpaces(s)..][..|r|] == r;
    }
    r
  }

  /** `r` is the slice of `s` starting at `i`, and what lies on either side of
      it is white space. */
  predicate TrimmedAt(s: string, r: string, i: int) {
    && 0 <= i && i + |r| <= |s|
    && s[i..i + |r|] == r
    && AllSpace(s[..i]) && AllSpace(s[i + |r|..])
  }

  lemma TrimOfTrimmed(s: string)
    requires Trimmed(s)
    ensures Trim(s) == s
  {
  }

  /** One leading blank is removed again by `trim`. */
  lemma TrimAfterBlank(s: string)
    requires Trimmed(s)
    ensures Trim(" " + s) == s
  {
    var t := " " + s;
    assert t[1..] == s;
    assert LeadingSpaces(t) == 1 + LeadingSpaces(s);
    if |s| > 0 {
      assert LeadingSpaces(s) == 0;
    }
  }

  /** ASCII letter case folding; see README for the Unicode cases left out. */
  function LowerChar(c: char): (r: char)
    ensures 'A' <= c <= 'Z' ==> r as int == c as int + 32
    ensures !('A' <= c <= 'Z') ==> r == c
  {
    if 'A' <= c <= 'Z' then (c as int + 32) as char else c
  }

  /** `String.prototype.toLowerCase`, restricted to ASCII letters. */
  function Lower(s: string): (r: string)
    ensures |r| == |s|
    ensures forall k :: 0 <= k < |s| ==> r[k] == LowerChar(s[k])
  {
    seq(|s|, k requires 0 <= k < |s| => LowerChar(s[k]))
  }

  predicate OccursAt(s: string, sub: string, i: int) {
    0 <= i && i + |sub| <= |s| && s[i..i + |sub|] == sub
  }

  /** An occurrence in the tail is one in the whole, one place further on. */
  lemma OccursAfterHead(s: string, sub: string, i: int)
    requires |s| > 0 && 0 <= i
    ensures OccursAt(s[1..], sub, i) <==> OccursAt(s, sub, i + 1)
  {
    if i + |sub| <= |s| - 1 {
      assert s[1..][i..i + |sub|] == s[i + 1..i + 1 + |sub|];
    }
  }

  /** `String.prototype.includes`: does `sub` occur somewhere in `s`? */
  function Includes(s: string, sub: string): (b: bool)
    ensures b <==> exists i :: OccursAt(s, sub, i)
  {
    if |sub| > |s| then
      assert forall i :: !OccursAt(s, sub, i);
      false
    else if s[..|sub|] == sub then
      assert OccursAt(s, sub, 0);
      true
    else
      var b := Includes(s[1..], sub);
      assert b ==> exists i :: OccursAt(s, sub, i) by {
        if b {
          var i :| OccursAt(s[1..], sub, i);
          OccursAfterHead(s, sub, i);
        }
      }
      assert (exists i :: OccursAt(s, sub, i)) ==> b by {
        if exists i :: OccursAt(s, sub, i) {
          var i :| OccursAt(s, sub, i);
          assert i != 0;
          OccursAfterHead(s, sub, i - 1);
        }
      }
      b
  }

  /** `String.prototype.startsWith`. */
  predicate StartsWith(s: string, prefix: string) {
    |prefix| <= |s| && s[..|prefix|] == prefix
  }

  /** `Array.prototype.join` on strings. */
  function Join(parts: seq<string>, sep: string): (r: string)
    ensures |parts| == 0 ==> r == ""
    ensures |parts| == 1 ==> r == parts[0]
  {
    if |parts| == 0 then ""
    else if |parts| == 1 then parts[0]
    else parts[0] + sep + Join(parts[1..], sep)
  }

  /** `String.prototype.split` with a one-character separator: the pieces
      between the separators, in order.  Joining them back with the separator
      gives back `s`, and no piece contains the separator (which fixes the
      pieces uniquely, see SplitJoin). */
  function Split(s: string, sep: char): (parts: seq<string>)
    ensures |parts| >= 1
    ensures forall i :: 0 <= i < |parts| ==> sep !in parts[i]
    ensures Join(parts, [sep]) == s
  {
    if |s| == 0 then [""]
    else
      var rest := Split(s[1..], sep);
      if s[0] == sep then
        assert s == [sep] + s[1..];
        [""] + rest
      else
        var parts := [[s[0]] + rest[0]] + rest[1..];
        assert parts[1..] == rest[1..];
        assert s == [s[0]] + s[1..];
        parts
  }

  lemma {:induction false} SplitNoSep(a: string, sep: char)
    requires sep !in a
    ensures Split(a, sep) == [a]
  {
    if |a| > 0 {
      SplitNoSep(a[1..], sep);
      assert [a[0]] + a[1..] == a;
    }
  }

  /** A piece followed by a separator comes off the front of a split. */
  lemma {:induction false} SplitCons(a: string, sep: char, b: string)
    requires sep !in a
    ensures Split(a + [sep] + b, sep) == [a] + Split(b, sep)
  {
    if |a| == 0 {
      assert a + [sep] + b == [sep] + b;
      assert ([sep] + b)[1..] == b;
    } else {
      var s := a + [sep] + b;
      assert s[1..] == a[1..] + [sep] + b;
      SplitCons(a[1..], sep, b);
      assert [a[0]] + a[1..] == a;
    }
  }

  /** Split is the inverse of Join when no piece holds the separator. */
  lemma {:induction false} SplitJoin(parts: seq<string>, sep: char)
    requires |parts| >= 1
    requires forall i :: 0 <= i < |parts| ==> sep !in parts[i]
    ensures Split(Join(parts, [sep]), sep) == parts
  {
    if |parts| == 1 {
      SplitNoSep(parts[0], sep);
    } else {
      SplitJoin(parts[1..], sep);
      SplitCons(parts[0], sep, Join(parts[1..], [sep]));
      assert [parts[0]] + parts[1..] == parts;
    }
  }

  /** `String.prototype.replace(from, to)` with one-character strings: only the
      first occurrence is replaced. */
  function ReplaceFirst(s: string, from: char, to: char): (r: string)
    ensures |r| == |s|
    ensures from !in s ==> r == s
    ensures from in s ==> exists i :: FirstReplacedAt(s, r, from, to, i)
  {
    if |s| == 0 then s
    else if s[0] == from then
      assert FirstReplacedAt(s, [to] + s[1..], from, to, 0);
      [to] + s[1..]
    else
      var rest := ReplaceFirst(s[1..], from, to);
      var r := [s[0]] + rest;
      assert from in s ==> exists i :: FirstReplacedAt(s, r, from, to, i) by {
        if from in s {
          assert s == [s[0]] + s[1..];
          assert from in s[1..];
          var i :| FirstReplacedAt(s[1..], rest, from, to, i);
          ReplacedAfterHead(s, rest, from, to, i);
        }
      }
      r
  }

  /** A replacement in the tail, behind a head that is not `from`, is one
      in the whole string. */
  lemma ReplacedAfterHead(s: string, rest: string, from: char, to: char, i: int)
    requires |s| > 0 && s[0] != from && FirstReplacedAt(s[1..], rest, from, to, i)
    ensures FirstReplacedAt(s, [s[0]] + rest, from, to, i + 1)
  {
    assert s[..i + 1] == [s[0]] + s[1..][..i];
    assert s[i + 2..] == s[1..][i + 1..];
  }

  /** `r` is `s` with the character at `i` (the first `from` in `s`) set to `to`. */
  predicate FirstReplacedAt(s: string, r: string, from: char, to: char, i: int) {
    && 0 <= i < |s| == |r|
    && s[i] == from && from !in s[..i]
    && r == s[..i] + [to] + s[i + 1..]
  }

  predicate IsDecDigit(c: char) {
    '0' <= c <= '9'
  }

  predicate IsHexDigit(c: char) {
    IsDecDigit(c) || 'a' <= c <= 'f' || 'A' <= c <= 'F'
  }

  function DigitValue(c: char): (d: nat)
    requires IsHexDigit(c)
    ensures d < 16
    ensures IsDecDigit(c) ==> d < 10
  {
    if IsDecDigit(c) then c as int - '0' as int
    else if 'a' <= c <= 'f' then c as int - 'a' as int + 10
    else c as int - 'A' as int + 10
  }

  predicate IsDigitIn(c: char, radix: nat) {
    if radix == 16 then IsHexDigit(c) else IsDecDigit(c)
  }

  /** Length of the longest prefix of `s` made of digits of the radix. */
  function DigitPrefix(s: string, radix: nat): (n: nat)
    ensures n <= |s|
    ensures forall k :: 0 <= k < n ==> IsDigitIn(s[k], radix)
    ensures n < |s| ==> !IsDigitIn(s[n], radix)
  {
    if |s| > 0 && IsDigitIn(s[0], radix) then 1 + DigitPrefix(s[1..], radix) else 0
  }

  /** The value of a string of digits in the radix (10 or 16). */
  function DigitsValue(ds: string, radix: nat): (v: nat)
    requires radix == 10 || radix == 16
    requires forall k :: 0 <= k < |ds| ==> IsDigitIn(ds[k], radix)
  {
    if |ds| == 0 then 0
    else
      assert IsHexDigit(ds[|ds| - 1]) by { assert IsDigitIn(ds[|ds| - 1], radix); }
      DigitsValue(ds[..|ds| - 1], radix) * radix + DigitValue(ds[|ds| - 1])
  }

  /** The decimal numeral of a natural number, without leading zeros. */
  function DecimalString(n: nat): (s: string)
    ensures |s| >= 1
    ensures forall k :: 0 <= k < |s| ==> IsDecDigit(s[k])
    ensures n > 0 ==> s[0] != '0'
  {
    if n < 10 then [('0' as int + n) as char]
    else DecimalString(n / 10) + [('0' as int + n % 10) as char]
  }

  lemma {:induction false} DecimalValue(n: nat)
    ensures DigitsValue(DecimalString(n), 10) == n
  {
    var s := DecimalString(n);
    if n >= 10 {
      DecimalValue(n / 10);
      assert s[..|s| - 1] == DecimalString(n / 10);
    }
  }

  /** JavaScript's `parseInt(text)` with no radix: skip leading white space,
      an optional sign, then a `0x`/`0X` prefix selects base 16; the value is
      that of the longest run of digits that follows.  `None` is NaN (no
      digits where the reading expects them).  An absent query parameter
      reaches parseInt as the text "null", which has no digits. */
  function ParseInt(text: string): (r: Option<int>)
  {
    var s := TrimStart(text);
    var neg := |s| > 0 && s[0] == '-';
    var s1 := if |s| > 0 && (s[0] == '-' || s[0] == '+') then s[1..] else s;
    var hex := |s1| >= 2 && s1[0] == '0' && (s1[1] == 'x' || s1[1] == 'X');
    var radix: nat := if hex then 16 else 10;
    var body := if hex then s1[2..] else s1;
    var n := DigitPrefix(body, radix);
    if n == 0 then None
    else
      var v: int := DigitsValue(body[..n], radix);
      Some(if neg then -v else v)
  }

  /** A text without any decimal digit parses to NaN. */
  lemma ParseIntNoDigits(text: string)
    requires forall k :: 0 <= k < |text| ==> !IsDecDigit(text[k])
    ensures ParseInt(text).None?
  {
    var s := TrimStart(text);
    assert forall k :: 0 <= k < |s| ==> s[k] == text[|text| - |s| + k];
    var s1 := if |s| > 0 && (s[0] == '-' || s[0] == '+') then s[1..] else s;
    assert forall k :: 0 <= k < |s1| ==> !IsDecDigit(s1[k]);
  }

  /** A decimal numeral, after optional white space and before anything that
      is not a digit, parses to its value: the reading of `?page=3` or
      `?page=3abc`. */
  lemma ParseIntDecimal(ws: string, n: nat, rest: string)
    requires AllSpace(ws)
    requires n > 0
    requires |rest| == 0 || !IsDecDigit(rest[0])
    ensures ParseInt(ws + DecimalString(n) + rest) == Some(n)
  {
    var d := DecimalString(n);
    var text := ws + d + rest;
    LeadingOfSpaces(ws, d + rest);
    assert text == ws + (d + rest);
    assert TrimStart(text) == d + rest;
    DigitPrefixOf(d, rest);
    assert (d + rest)[..|d|] == d;
    DecimalValue(n);
  }

  /** The same without leading white space: `?page=3`. */
  lemma ParseIntNumeral(n: nat, rest: string)
    requires n > 0
    requires |rest| == 0 || !IsDecDigit(rest[0])
    ensures ParseInt(DecimalString(n) + rest) == Some(n)
  {
    var d := DecimalString(n);
    var text := d + rest;
    assert !IsSpace(text[0]);
    assert TrimStart(text) == text;
    DigitPrefixOf(d, rest);
    assert text[..|d|] == d;
    DecimalValue(n);
  }

  lemma {:induction false} LeadingOfSpaces(ws: string, t: string)
    requires AllSpace(ws)
    requires |t| > 0 && !IsSpace(t[0])
    ensures LeadingSpaces(ws + t) == |ws|
  {
    if |ws| > 0 {
      assert (ws + t)[1..] == ws[1..] + t;
      LeadingOfSpaces(ws[1..], t);
    } else {
      assert ws + t == t;
    }
  }

  lemma {:induction false} DigitPrefixOf(d: string, rest: string)
    requires forall k :: 0 <= k < |d| ==> IsDecDigit(d[k])
    requires |rest| == 0 || !IsDecDigit(rest[0])
    ensures DigitPrefix(d + rest, 10) == |d|
  {
    if |d| > 0 {
      assert (d + rest)[1..] == d[1..] + rest;
      DigitPrefixOf(d[1..], rest);
    } else {
      assert d + rest == rest;
    }
  }

  /** `s || fallback` for a value that is a string or absent: a missing or
      empty string gives the fallback. */
  function OrElse(s: Option<string>, fallback: string): (t: string)
    ensures s.None? || s == Some("") ==> t == fallback
    ensures s.Some? && s.value != "" ==> t == s.value
  {
    if s.Some? && s.value != "" then s.value else fallback
  }
}
