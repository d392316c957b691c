/**
  String operations the services rely on, written with Python's semantics:
  substring search, `str.startswith`, `str.replace`, `str.lower` (ASCII),
  `str.strip`/`str.rstrip`, `str.split` on one character, `str.join`, and
  `str(int)` for exit codes and time stamps.
 */
module Text {

  /** A value or Python's `None`. */
  datatype Option<T> = None | Some(value: T)

  /** `p` is a prefix of `s`. */
  predicate IsPrefix(p: string, s: string) {
    |p| <= |s| && s[..|p|] == p
  }

  /** Python's `s.startswith(p)`. */
  predicate StartsWith(s: string, p: string) {
    IsPrefix(p, s)
  }

  /** `sub` occurs in `s` starting at index `i`. */
  predicate OccursAt(s: string, sub: string, i: int) {
    0 <= i && i + |sub| <= |s| && s[i..i + |sub|] == sub
  }

  /** Python's `sub in s`: some position holds an occurrence. */
  predicate Contains(s: string, sub: string) {
    exists i | 0 <= i <= |s| - |sub| :: OccursAt(s, sub, i)
  }

  /** `Contains` yields the position of an occurrence. */
  lemma ContainsOccurs(s: string, sub: string) returns (i: int)
    requires Contains(s, sub)
    ensures OccursAt(s, sub, i)
  {
    i :| 0 <= i <= |s| - |sub| && OccursAt(s, sub, i);
  }

  /** The recursive reading of `sub in s`: a prefix here, or an occurrence further on. */
  lemma ContainsUnfold(s: string, sub: string)
    ensures Contains(s, sub) <==> IsPrefix(sub, s) || (|s| > 0 && Contains(s[1..], sub))
  {
    if Contains(s, sub) && !IsPrefix(sub, s) {
      var i := ContainsOccurs(s, sub);
      assert s[1..][i - 1..i - 1 + |sub|] == s[i..i + |sub|];
      assert OccursAt(s[1..], sub, i - 1);
    }
    if IsPrefix(sub, s) {
      assert OccursAt(s, sub, 0);
    }
    if |s| > 0 && Contains(s[1..], sub) {
      var j := ContainsOccurs(s[1..], sub);
      assert s[j + 1..j + 1 + |sub|] == s[1..][j..j + |sub|];
      assert OccursAt(s, sub, j + 1);
    }
  }

  /** Every character of an occurring substring occurs in the string. */
  lemma ContainsCharOf(s: string, sub: string, k: int)
    requires Contains(s, sub)
    requires 0 <= k < |sub|
    ensures sub[k] in s
  {
    var i := ContainsOccurs(s, sub);
    assert s[i + k] == sub[k];
  }

  /** Python's `s.replace(from, to)`: every non-overlapping occurrence, left to right. */
  function ReplaceAll(s: string, from: string, to: string): (r: string)
    requires |from| > 0
    ensures !Contains(s, from) ==> r == s
    decreases |s|
  {
    ContainsUnfold(s, from);
    if |s| < |from| then s
    else if s[..|from|] == from then to + ReplaceAll(s[|from|..], from, to)
    else [s[0]] + ReplaceAll(s[1..], from, to)
  }

  /** Python's `s.replace(c, "")` for one character. */
  function RemoveChar(s: string, c: char): (r: string)
    ensures c !in r
    ensures c !in s ==> r == s
  {
    if s == [] then []
    else if s[0] == c then RemoveChar(s[1..], c)
    else [s[0]] + RemoveChar(s[1..], c)
  }

  /** Replacement adds no character beyond the text and the replacement. */
  lemma {:induction false} ReplaceAllChars(s: string, from: string, to: string, x: char)
    requires |from| > 0
    ensures x in ReplaceAll(s, from, to) ==> x in s || x in to
    decreases |s|
  {
    if |s| >= |from| {
      if s[..|from|] == from {
        ReplaceAllChars(s[|from|..], from, to, x);
        assert x in s[|from|..] ==> x in s;
      } else {
        ReplaceAllChars(s[1..], from, to, x);
        assert x in s[1..] ==> x in s;
      }
    }
  }

  /** Removing a character adds none. */
  lemma {:induction false} RemoveCharChars(s: string, c: char, x: char)
    ensures x in RemoveChar(s, c) ==> x in s
  {
    if s != [] {
      RemoveCharChars(s[1..], c, x);
      assert x in s[1..] ==> x in s;
    }
  }

  /** Python's `s.replace(a, b)` for single characters. */
  function ReplaceChar(s: string, a: char, b: char): (r: string)
    ensures |r| == |s|
    ensures forall i :: 0 <= i < |s| ==> r[i] == (if s[i] == a then b else s[i])
  {
    if s == [] then []
    else [if s[0] == a then b else s[0]] + ReplaceChar(s[1..], a, b)
  }

  function LowerChar(c: char): char {
    if 'A' <= c <= 'Z' then (c as int + 32) as char else c
  }

  /** `str.lower()` on the ASCII letters. */
  function Lower(s: string): (r: string)
    ensures |r| == |s|
    ensures forall i :: 0 <= i < |s| ==> r[i] == LowerChar(s[i])
  {
    if s == [] then [] else [LowerChar(s[0])] + Lower(s[1..])
  }

  /** No ASCII upper-case letter occurs in `s`. */
  predicate NoUpper(s: string) {
    forall i :: 0 <= i < |s| ==> !('A' <= s[i] <= 'Z')
  }

  lemma LowerHasNoUpper(s: string)
    ensures NoUpper(Lower(s))
  {
  }

  /** Lower-casing keeps every occurrence: an occurrence of `sub` becomes one of `Lower(sub)`. */
  lemma LowerKeepsOccurrence(s: string, sub: string)
    requires Contains(s, sub)
    ensures Contains(Lower(s), Lower(sub))
  {
    var i := ContainsOccurs(s, sub);
    assert Lower(s)[i..i + |sub|] == Lower(sub);
    assert OccursAt(Lower(s), Lower(sub), i);
  }

  /** The whitespace characters of Python's `str.isspace` and of `\s` in `re`. */
  predicate IsSpace(c: char) {
    ('\t' <= c <= '\r') || ('\U{1C}' <= c <= ' ') || c == '\U{85}' || c == '\U{A0}'
    || c == '\U{1680}' || ('\U{2000}' <= c <= '\U{200A}') || c == '\U{2028}'
    || c == '\U{2029}' || c == '\U{202F}' || c == '\U{205F}' || c == '\U{3000}'
  }

  /** `s.lstrip()`. */
  function LStrip(s: string): (r: string)
    ensures |r| <= |s| && r == s[|s| - |r|..]
    ensures r == [] || !IsSpace(r[0])
    ensures forall i :: 0 <= i < |s| - |r| ==> IsSpace(s[i])
  {
    if s != [] && IsSpace(s[0]) then LStrip(s[1..]) else s
  }

  /** `s.rstrip()`. */
  function RStrip(s: string): (r: string)
    ensures |r| <= |s| && r == s[..|r|]
    ensures r == [] || !IsSpace(r[|r| - 1])
    ensures forall i :: |r| <= i < |s| ==> IsSpace(s[i])
  {
    if s != [] && IsSpace(s[|s| - 1]) then RStrip(s[..|s| - 1]) else s
  }

  /** `s.strip()`: the slice of `s` left after dropping the whitespace at both ends. */
  function Strip(s: string): (r: string)
    ensures |r| <= |s|
    ensures r == [] || (!IsSpace(r[0]) && !IsSpace(r[|r| - 1]))
    ensures var i := |s| - |LStrip(s)|;
      && i + |r| <= |s| && r == s[i..i + |r|]
      && (forall k :: 0 <= k < i ==> IsSpace(s[k]))
      && (forall k :: i + |r| <= k < |s| ==> IsSpace(s[k]))
  {
    RStrip(LStrip(s))
  }

  /** What `strip` keeps is a slice of the text, so it adds no character. */
  lemma StripChars(s: string, x: char)
    ensures x in Strip(s) ==> x in s
  {
    var l := LStrip(s);
    assert x in l[..|RStrip(l)|] ==> x in l;
    assert x in s[|s| - |l|..] ==> x in s;
  }

  /** Stripping a string that holds only whitespace gives the empty string. */
  lemma StripEmptyIffBlank(s: string)
    ensures Strip(s) == [] <==> forall i :: 0 <= i < |s| ==> IsSpace(s[i])
  {
  }

  /** Python's `s.split(sep)` for a one-character separator. */
  function Split(s: string, sep: char): (r: seq<string>)
    ensures |r| >= 1
    ensures forall k :: 0 <= k < |r| ==> sep !in r[k]
  {
    if s == [] then [""]
    else if s[0] == sep then [""] + Split(s[1..], sep)
    else
      var rest := Split(s[1..], sep);
      [[s[0]] + rest[0]] + rest[1..]
  }

  /** Python's `sep.join(parts)`. */
  function Join(parts: seq<string>, sep: string): string {
    if parts == [] then ""
    else if |parts| == 1 then parts[0]
    else parts[0] + sep + Join(parts[1..], sep)
  }

  /** Splitting on a character and joining with it gives back the original text. */
  lemma {:induction false} JoinSplit(s: string, sep: char)
    ensures Join(Split(s, sep), [sep]) == s
  {
    if s == [] {
    } else if s[0] == sep {
      JoinSplit(s[1..], sep);
      assert Split(s, sep) == [""] + Split(s[1..], sep);
    } else {
      JoinSplit(s[1..], sep);
      var rest := Split(s[1..], sep);
      if |rest| == 1 {
        assert rest[0] == s[1..];
      } else {
        assert Join(rest, [sep]) == rest[0] + [sep] + Join(rest[1..], [sep]);
        assert ([s[0]] + rest[0]) + [sep] + Join(rest[1..], [sep]) == [s[0]] + Join(rest, [sep]);
      }
    }
  }

  /** The last piece of `s.split(sep)`, i.e. `s.split(sep)[-1]`. */
  function LastSegment(s: string, sep: char): (r: string)
    ensures sep !in r
  {
    var parts := Split(s, sep);
    parts[|parts| - 1]
  }

  /** A join ends with its last part, after a separator when there are several parts. */
  lemma {:induction false} JoinEndsWithLast(parts: seq<string>, sep: string)
    requires |parts| >= 1
    ensures |parts| == 1 ==> Join(parts, sep) == parts[0]
    ensures |parts| > 1 ==> exists x :: Join(parts, sep) == x + sep + parts[|parts| - 1]
  {
    if |parts| > 1 {
      var rest := parts[1..];
      JoinEndsWithLast(rest, sep);
      if |rest| == 1 {
        assert Join(parts, sep) == parts[0] + sep + parts[|parts| - 1];
      } else {
        var x :| Join(rest, sep) == x + sep + rest[|rest| - 1];
        assert Join(parts, sep) == (parts[0] + sep + x) + sep + parts[|parts| - 1];
      }
    }
  }

  /**
    `s.split(sep)[-1]` is the part of `s` after its last separator: a suffix
    of `s`, preceded by the separator when shorter than `s`, and `s` itself
    when `s` holds no separator.
   */
  lemma LastSegmentSpec(s: string, sep: char)
    ensures var r := LastSegment(s, sep);
      && |r| <= |s| && s[|s| - |r|..] == r
      && (|r| < |s| ==> s[|s| - |r| - 1] == sep)
      && (sep !in s ==> r == s)
  {
    var parts := Split(s, sep);
    JoinSplit(s, sep);
    JoinEndsWithLast(parts, [sep]);
    var r := parts[|parts| - 1];
    if |parts| > 1 {
      var x :| Join(parts, [sep]) == x + [sep] + r;
      assert s == x + [sep] + r;
      assert s[|s| - |r|..] == r;
      assert s[|s| - |r| - 1] == sep;
    }
  }

  function DigitChar(d: nat): char
    requires d < 10
  {
    ('0' as int + d) as char
  }

  /** Decimal rendering of a natural number (`str(n)`). */
  function NatToString(n: nat): (r: string)
    ensures |r| >= 1
    ensures forall i :: 0 <= i < |r| ==> '0' <= r[i] <= '9'
    decreases n
  {
    if n < 10 then [DigitChar(n)] else NatToString(n / 10) + [DigitChar(n % 10)]
  }

  /** Reads back a string of decimal digits. */
  function ParseNat(s: string): nat
    requires forall i :: 0 <= i < |s| ==> '0' <= s[i] <= '9'
  {
    if s == [] then 0 else ParseNat(s[..|s| - 1]) * 10 + (s[|s| - 1] as int - '0' as int)
  }

  /** Reading back the decimal rendering gives the number: the rendering loses nothing. */
  lemma {:induction false} ParseNatToString(n: nat)
    ensures ParseNat(NatToString(n)) == n
    decreases n
  {
    if n >= 10 {
      ParseNatToString(n / 10);
      var s := NatToString(n);
      assert s[..|s| - 1] == NatToString(n / 10);
    }
  }

  /** `str(i)` for any integer, with a leading '-' for negative values. */
  function IntToString(i: int): (r: string)
    ensures |r| >= 1
    ensures (r[0] == '-') <==> i < 0
  {
    if i < 0 then "-" + NatToString(-i) else NatToString(i)
  }

  /** Distinct natural numbers have distinct decimal renderings. */
  lemma NatToStringInjective(a: nat, b: nat)
    requires a != b
    ensures NatToString(a) != NatToString(b)
  {
    ParseNatToString(a);
    ParseNatToString(b);
  }

  /** Distinct numbers have distinct decimal renderings. */
  lemma IntToStringInjective(a: int, b: int)
    requires a != b
    ensures IntToString(a) != IntToString(b)
  {
    if a < 0 && b < 0 {
      var x, y := NatToString(-a), NatToString(-b);
      NatToStringInjective(-a, -b);
      assert ("-" + x)[1..] == x && ("-" + y)[1..] == y;
    } else if a >= 0 && b >= 0 {
      NatToStringInjective(a, b);
    }
  }

  /** Python's `str(b).lower()`. */
  function BoolText(b: bool): (r: string)
    ensures r == "true" <==> b
    ensures r == "false" <==> !b
  {
    if b then "true" else "false"
  }

  // ----- `repr` of a string -----

  /** The lower-case hexadecimal digit of `d`. */
  function HexDigit(d: int): char
    requires 0 <= d < 16
  {
    "0123456789abcdef"[d]
  }

  /** The value of a lower-case hexadecimal digit. */
  function HexValue(c: char): Option<int> {
    if '0' <= c <= '9' then Some(c as int - '0' as int)
    else if 'a' <= c <= 'f' then Some(c as int - 'a' as int + 10)
    else None
  }

  lemma HexValueOfDigit(d: int)
    requires 0 <= d < 16
    ensures HexValue(HexDigit(d)) == Some(d)
  {
  }

  /** An ASCII control character, which `repr` writes as `\xhh` unless it has a short escape. */
  predicate IsControl(c: char) {
    c as int < 32 || c as int == 127
  }

  /** The quote `repr` chooses: '"' when the text holds a single quote and no double quote, else a single quote. */
  function QuoteFor(s: string): char {
    if '\'' in s && '"' !in s then '"' else '\''
  }

  /** How `repr` writes one character inside quotes `q`. */
  function EscapeChar(c: char, q: char): string {
    if c == '\\' || c == q then ['\\', c]
    else if c == '\t' then ['\\', 't']
    else if c == '\n' then ['\\', 'n']
    else if c == '\r' then ['\\', 'r']
    else if IsControl(c) then ['\\', 'x', HexDigit(c as int / 16), HexDigit(c as int % 16)]
    else [c]
  }

  function Escape(s: string, q: char): string {
    if s == [] then [] else EscapeChar(s[0], q) + Escape(s[1..], q)
  }

  /** Python's `repr(s)` of a string: the text quoted, with backslashes, its quote and ASCII controls escaped. */
  function Repr(s: string): (r: string)
    ensures |r| >= 2 && r[0] == r[|r| - 1]
    ensures r[0] == '"' <==> '\'' in s && '"' !in s
    ensures r[0] == '\'' <==> !('\'' in s && '"' !in s)
  {
    [QuoteFor(s)] + Escape(s, QuoteFor(s)) + [QuoteFor(s)]
  }

  /** Reads a string literal's body back: the inverse of `Escape`; `None` for a malformed escape. */
  function Unescape(t: string): Option<string>
    decreases |t|
  {
    if t == [] then Some([])
    else if t[0] != '\\' then Prepend([t[0]], Unescape(t[1..]))
    else if |t| < 2 then None
    else if t[1] == '\\' || t[1] == '\'' || t[1] == '"' then Prepend([t[1]], Unescape(t[2..]))
    else if t[1] == 't' then Prepend(['\t'], Unescape(t[2..]))
    else if t[1] == 'n' then Prepend(['\n'], Unescape(t[2..]))
    else if t[1] == 'r' then Prepend(['\r'], Unescape(t[2..]))
    else if t[1] == 'x' && |t| >= 4 && HexValue(t[2]).Some? && HexValue(t[3]).Some? then
      Prepend([(16 * HexValue(t[2]).value + HexValue(t[3]).value) as char], Unescape(t[4..]))
    else None
  }

  function Prepend(p: string, r: Option<string>): Option<string> {
    if r.Some? then Some(p + r.value) else None
  }

  /** Reads back a quoted literal as `repr` writes it. */
  function Unrepr(r: string): Option<string> {
    if |r| >= 2 && r[0] == r[|r| - 1] && (r[0] == '\'' || r[0] == '"') then Unescape(r[1..|r| - 1])
    else None
  }

  /** One escaped character is read back as itself. */
  lemma UnescapeChar(c: char, q: char, rest: string)
    requires q == '\'' || q == '"'
    ensures Unescape(EscapeChar(c, q) + rest) == Prepend([c], Unescape(rest))
  {
    var e := EscapeChar(c, q);
    if c == '\\' || c == q || c == '\t' || c == '\n' || c == '\r' {
      assert (e + rest)[2..] == rest;
    } else if IsControl(c) {
      var v := c as int;
      HexValueOfDigit(v / 16);
      HexValueOfDigit(v % 16);
      assert e == ['\\', 'x', HexDigit(v / 16), HexDigit(v % 16)];
      assert (e + rest)[4..] == rest;
      assert (16 * (v / 16) + v % 16) as char == c;
    } else {
      assert (e + rest)[1..] == rest;
    }
  }

  lemma {:induction false} UnescapeEscape(s: string, q: char)
    requires q == '\'' || q == '"'
    ensures Unescape(Escape(s, q)) == Some(s)
    decreases |s|
  {
    if s != [] {
      assert Escape(s, q) == EscapeChar(s[0], q) + Escape(s[1..], q);
      UnescapeChar(s[0], q, Escape(s[1..], q));
      UnescapeEscape(s[1..], q);
      assert [s[0]] + s[1..] == s;
    }
  }

  /** `repr` loses nothing: its text reads back as the original string. */
  lemma ReprRoundTrip(s: string)
    ensures Unrepr(Repr(s)) == Some(s)
  {
    var q := QuoteFor(s);
    var r := Repr(s);
    assert r[1..|r| - 1] == Escape(s, q);
    UnescapeEscape(s, q);
  }

  /** Distinct strings have distinct `repr` texts. */
  lemma ReprInjective(a: string, b: string)
    requires a != b
    ensures Repr(a) != Repr(b)
  {
    ReprRoundTrip(a);
    ReprRoundTrip(b);
  }

  /** A text without quotes, backslashes or ASCII controls is written unchanged between single quotes. */
  lemma {:induction false} ReprPlain(s: string)
    requires forall i :: 0 <= i < |s| ==> s[i] != '\'' && s[i] != '"' && s[i] != '\\' && !IsControl(s[i])
    ensures Repr(s) == "'" + s + "'"
  {
    EscapePlain(s);
  }

  lemma {:induction false} EscapePlain(s: string)
    requires forall i :: 0 <= i < |s| ==> s[i] != '\'' && s[i] != '"' && s[i] != '\\' && !IsControl(s[i])
    ensures Escape(s, '\'') == s
    decreases |s|
  {
    if s != [] {
      EscapePlain(s[1..]);
      assert [s[0]] + s[1..] == s;
    }
  }
}
