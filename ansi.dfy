/**
  The escape-sequence stripper shared by the services: the pattern
  `\x1B(?:[@-Z\\-_]|\[[0-?]*[ -/]*[@-~])` substituted by "" over the whole text.
  It is the control-sequence grammar of ECMA-48 section 5.4: ESC followed by one
  Fe byte, or a control sequence introducer ESC '[' followed by parameter bytes,
  intermediate bytes and one final byte. The character classes are disjoint
  (parameters 0x30-0x3F, intermediates 0x20-0x2F, final 0x40-0x7E), so the
  pattern's backtracking never changes the outcome and a deterministic scanner
  computes the same match.
 */
module Ansi {
  import opened Text

  const ESC: char := '\U{1B}'

  /** `[@-Z\\-_]`: 0x40-0x5A and 0x5C-0x5F; '[' (0x5B) is left to the CSI branch. */
  predicate IsFe(c: char) {
    ('@' <= c <= 'Z') || ('\\' <= c <= '_')
  }

  predicate IsParam(c: char) {
    '0' <= c <= '?'
  }

  predicate IsIntermediate(c: char) {
    ' ' <= c <= '/'
  }

  predicate IsFinal(c: char) {
    '@' <= c <= '~'
  }

  predicate AllParams(p: string) {
    forall k :: 0 <= k < |p| ==> IsParam(p[k])
  }

  predicate AllIntermediates(m: string) {
    forall k :: 0 <= k < |m| ==> IsIntermediate(m[k])
  }

  /** Declarative grammar of one sequence the pattern removes. */
  ghost predicate IsEscapeSequence(w: string) {
    (|w| == 2 && w[0] == ESC && IsFe(w[1]))
    || (exists p: string, m: string, f: char ::
          AllParams(p) && AllIntermediates(m) && IsFinal(f) && w == [ESC, '['] + p + m + [f])
  }

  /** End of the run of parameter bytes starting at `i`. */
  function ParamEnd(s: string, i: nat): (j: nat)
    requires i <= |s|
    ensures i <= j <= |s|
    ensures forall k :: i <= k < j ==> IsParam(s[k])
    ensures j == |s| || !IsParam(s[j])
    decreases |s| - i
  {
    if i < |s| && IsParam(s[i]) then ParamEnd(s, i + 1) else i
  }

  /** End of the run of intermediate bytes starting at `i`. */
  function InterEnd(s: string, i: nat): (j: nat)
    requires i <= |s|
    ensures i <= j <= |s|
    ensures forall k :: i <= k < j ==> IsIntermediate(s[k])
    ensures j == |s| || !IsIntermediate(s[j])
    decreases |s| - i
  {
    if i < |s| && IsIntermediate(s[i]) then InterEnd(s, i + 1) else i
  }

  /** Length of the sequence matched at the start of `s`, or 0 when the pattern does not match there. */
  function SequenceLength(s: string): (n: nat)
    requires |s| > 0 && s[0] == ESC
    ensures n == 0 || 2 <= n <= |s|
  {
    if |s| >= 2 && IsFe(s[1]) then 2
    else if |s| >= 2 && s[1] == '[' then
      var q := InterEnd(s, ParamEnd(s, 2));
      if q < |s| && IsFinal(s[q]) then q + 1 else 0
    else 0
  }

  /** Length of the sequence matched at the start of `s`, 0 when there is none or `s` does not start with ESC. */
  function MatchAt(s: string): (n: nat)
    requires s != []
    ensures n == 0 || 2 <= n <= |s|
  {
    if s[0] == ESC then SequenceLength(s) else 0
  }

  /** `re.sub(pattern, '', s)`: scan left to right, drop every matched sequence, keep every other character. */
  function StripEscapes(s: string): (r: string)
    ensures |r| <= |s|
    ensures ESC !in s ==> r == s
    decreases |s|
  {
    if s == [] then []
    else
      var n := MatchAt(s);
      if n > 0 then StripEscapes(s[n..]) else [s[0]] + StripEscapes(s[1..])
  }

  /** Stripping adds no character. */
  lemma {:induction false} StripEscapesChars(s: string, x: char)
    ensures x in StripEscapes(s) ==> x in s
    decreases |s|
  {
    if s != [] {
      if MatchAt(s) > 0 {
        StripEscapesChars(s[MatchAt(s)..], x);
        assert x in s[MatchAt(s)..] ==> x in s;
      } else {
        StripEscapesChars(s[1..], x);
        assert x in s[1..] ==> x in s;
      }
    }
  }

  /** A run of parameter bytes followed by a non-parameter byte ends exactly there. */
  lemma {:induction false} ParamEndAt(s: string, i: nat, j: nat)
    requires i <= j < |s|
    requires forall k :: i <= k < j ==> IsParam(s[k])
    requires !IsParam(s[j])
    ensures ParamEnd(s, i) == j
    decreases j - i
  {
    if i < j {
      ParamEndAt(s, i + 1, j);
    }
  }

  /** A run of intermediate bytes followed by a non-intermediate byte ends exactly there. */
  lemma {:induction false} InterEndAt(s: string, i: nat, j: nat)
    requires i <= j < |s|
    requires forall k :: i <= k < j ==> IsIntermediate(s[k])
    requires !IsIntermediate(s[j])
    ensures InterEnd(s, i) == j
    decreases j - i
  {
    if i < j {
      InterEndAt(s, i + 1, j);
    }
  }

  /** What the scanner removes is a sequence of the grammar. */
  lemma ScannerSound(s: string)
    requires |s| > 0 && s[0] == ESC && SequenceLength(s) > 0
    ensures IsEscapeSequence(s[..SequenceLength(s)])
  {
    var n := SequenceLength(s);
    if !IsFe(s[1]) {
      var p0 := ParamEnd(s, 2);
      var q := InterEnd(s, p0);
      var p, m, f := s[2..p0], s[p0..q], s[q];
      assert AllParams(p);
      assert AllIntermediates(m);
      assert s[..n] == [ESC, '['] + p + m + [f];
    }
  }

  /** Every sequence of the grammar at the start of `s` is found whole by the scanner: the grammar is prefix-free, so the match is unique. */
  lemma ScannerComplete(s: string, n: nat)
    requires n <= |s| && IsEscapeSequence(s[..n])
    ensures s[0] == ESC && SequenceLength(s) == n
  {
    var w := s[..n];
    assert s[0] == w[0];
    if !(|w| == 2 && w[0] == ESC && IsFe(w[1])) {
      var p: string, m: string, f: char :| AllParams(p) && AllIntermediates(m) && IsFinal(f) && w == [ESC, '['] + p + m + [f];
      assert s[1] == '[';
      var pe := 2 + |p|;
      var qe := pe + |m|;
      forall k | 2 <= k < pe ensures IsParam(s[k]) {
        assert s[k] == w[k] == p[k - 2];
      }
      forall k | pe <= k < qe ensures IsIntermediate(s[k]) {
        assert s[k] == w[k] == m[k - pe];
      }
      assert s[qe] == w[qe] == f;
      if |m| > 0 {
        assert s[pe] == m[0];
      }
      ParamEndAt(s, 2, pe);
      InterEndAt(s, pe, qe);
    }
  }

  /** A first character other than ESC is kept. */
  lemma StripEscapesKeepsFirst(s: string)
    requires s != [] && s[0] != ESC
    ensures StripEscapes(s) == [s[0]] + StripEscapes(s[1..])
  {
  }

  /** A sequence matched at the start is dropped whole. */
  lemma StripEscapesSkips(s: string, n: nat)
    requires s != [] && s[0] == ESC && SequenceLength(s) == n && n > 0
    ensures StripEscapes(s) == StripEscapes(s[n..])
  {
  }

  /** Text without a leading ESC passes through unchanged ahead of the rest. */
  lemma {:induction false} StripEscapesPlainPrefix(w: string, t: string)
    requires ESC !in w
    ensures StripEscapes(w + t) == w + StripEscapes(t)
    decreases |w|
  {
    if w == [] {
      assert w + t == t;
    } else {
      var s := w + t;
      assert s[0] == w[0] && s[1..] == w[1..] + t;
      StripEscapesKeepsFirst(s);
      StripEscapesPlainPrefix(w[1..], t);
      assert w == [w[0]] + w[1..];
    }
  }

  /** A whole sequence of the grammar in front of the text is removed. */
  lemma StripEscapesDropsSequence(e: string, t: string)
    requires IsEscapeSequence(e)
    ensures StripEscapes(e + t) == StripEscapes(t)
  {
    var s := e + t;
    assert s[..|e|] == e;
    ScannerComplete(s, |e|);
    assert s[|e|..] == t;
    StripEscapesSkips(s, |e|);
  }

  /** A Select Graphic Rendition sequence: ESC '[' parameters 'm' (colour, bold, reset). */
  function Sgr(codes: string): (e: string)
    requires forall k :: 0 <= k < |codes| ==> '0' <= codes[k] <= '9' || codes[k] == ';'
    ensures |e| == |codes| + 3 && e[0] == ESC
  {
    [ESC, '['] + codes + "m"
  }

  lemma SgrIsSequence(codes: string)
    requires forall k :: 0 <= k < |codes| ==> '0' <= codes[k] <= '9' || codes[k] == ';'
    ensures IsEscapeSequence(Sgr(codes))
  {
    assert AllParams(codes);
    assert AllIntermediates("");
    assert Sgr(codes) == [ESC, '['] + codes + "" + ['m'];
  }

  /** Coloured output such as ESC[32m "Hello" ESC[0m " World" loses its colour codes and keeps its text. */
  lemma StripEscapesColoured(c1: string, a: string, c2: string, b: string)
    requires forall k :: 0 <= k < |c1| ==> '0' <= c1[k] <= '9' || c1[k] == ';'
    requires forall k :: 0 <= k < |c2| ==> '0' <= c2[k] <= '9' || c2[k] == ';'
    requires ESC !in a && ESC !in b
    ensures StripEscapes(Sgr(c1) + a + Sgr(c2) + b) == a + b
  {
    SgrIsSequence(c1);
    SgrIsSequence(c2);
    StripEscapesDropsSequence(Sgr(c2), b);
    StripEscapesPlainPrefix(a, Sgr(c2) + b);
    StripEscapesDropsSequence(Sgr(c1), a + (Sgr(c2) + b));
    assert Sgr(c1) + a + Sgr(c2) + b == Sgr(c1) + (a + (Sgr(c2) + b));
  }
}
