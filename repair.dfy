/**
 * The text passes the workflow parser applies to model output before decoding
 * it: line-ending normalisation, typographic quotes, comments, the UI-only
 * `"measured"` field, trailing commas, blank lines, bare keys and single
 * quotes. Each regular expression of `lib/workflow-ai.ts` is written out as a
 * left-to-right scanner with the same leftmost, greedy matching and the same
 * resume-after-the-match rule as a global JavaScript `replace`.
 */
module Repair {
  import opened Wrappers
  import opened Text

  // ---------------------------------------------------------------------------
  // Line endings: `.replace(/\r\n/g, '\n').replace(/\r/g, '\n')`

  /** `s.replace(/\r\n/g, '\n')`. */
  function CrLfToLf(s: string): (r: string)
    ensures |r| <= |s|
    ensures '\r' !in s ==> r == s
    decreases |s|
  {
    if s == [] then []
    else if |s| >= 2 && s[0] == '\r' && s[1] == '\n' then "\n" + CrLfToLf(s[2..])
    else [s[0]] + CrLfToLf(s[1..])
  }

  /** `s.replace(/\r/g, '\n')`. */
  function CrToLf(s: string): (r: string)
    ensures |r| == |s|
    ensures '\r' !in r
    ensures forall i :: 0 <= i < |s| ==> r[i] == if s[i] == '\r' then '\n' else s[i]
  {
    seq(|s|, i requires 0 <= i < |s| => if s[i] == '\r' then '\n' else s[i])
  }

  /** The two passes together: every `\r\n` and every lone `\r` becomes `\n`. */
  function NormalizeNewlines(s: string): (r: string)
    ensures '\r' !in r
    ensures '\r' !in s ==> r == s
    ensures |r| <= |s|
  {
    CrToLf(CrLfToLf(s))
  }

  /** Normalising line endings twice is the same as once. */
  lemma NormalizeNewlinesIdempotent(s: string)
    ensures NormalizeNewlines(NormalizeNewlines(s)) == NormalizeNewlines(s)
  {
  }

  // ---------------------------------------------------------------------------
  // Typographic quotes

  /** The characters of the two classes `[“”„‟«»]` and `[‘’‚‛‹›]`. */
  predicate IsSmartQuote(c: char) {
    c == '\U{201C}' || c == '\U{201D}' || c == '\U{201E}' || c == '\U{201F}'
    || c == '\U{00AB}' || c == '\U{00BB}'
    || c == '\U{2018}' || c == '\U{2019}' || c == '\U{201A}' || c == '\U{201B}'
    || c == '\U{2039}' || c == '\U{203A}'
  }

  /** `normalizeQuotes`: every typographic quote becomes `"`; nothing else moves. */
  function NormalizeQuotes(s: string): (r: string)
    ensures |r| == |s|
    ensures forall i :: 0 <= i < |s| && !IsSmartQuote(s[i]) ==> r[i] == s[i]
    ensures forall i :: 0 <= i < |s| && IsSmartQuote(s[i]) ==> r[i] == '"'
    ensures forall i :: 0 <= i < |r| ==> !IsSmartQuote(r[i])
  {
    seq(|s|, i requires 0 <= i < |s| => if IsSmartQuote(s[i]) then '"' else s[i])
  }

  lemma NormalizeQuotesIdempotent(s: string)
    ensures NormalizeQuotes(NormalizeQuotes(s)) == NormalizeQuotes(s)
  {
  }

  // ---------------------------------------------------------------------------
  // Comments: `.replace(/\/\*[\s\S]*?\*\//g, '').replace(/(^|\s)\/\/.*$/gm, '')`

  /**
   * `s.replace(/\/\*[\s\S]*?\*\//g, '')`: a `/*` together with the first `*/`
   * after it is removed; a `/*` with no `*/` after it stays.
   */
  function StripBlockComments(s: string): (r: string)
    ensures |r| <= |s|
    decreases |s|
  {
    if |s| < 2 then s
    else if s[0] == '/' && s[1] == '*' && Find(s, "*/", 2) != -1 then
      StripBlockComments(s[Find(s, "*/", 2) + 2..])
    else [s[0]] + StripBlockComments(s[1..])
  }

  /** Index of the first line terminator in `s`, or `|s|`. */
  function LineEnd(s: string): (e: nat)
    ensures e <= |s|
    ensures e < |s| ==> IsLineTerminator(s[e])
    ensures forall i :: 0 <= i < e ==> !IsLineTerminator(s[i])
  {
    if s == [] || IsLineTerminator(s[0]) then 0 else 1 + LineEnd(s[1..])
  }

  /**
   * `s.replace(/(^|\s)\/\/.*$/gm, '')`. `atLineStart` says whether the text
   * before `s` ends a line (or there is none), which is what `^` tests under
   * the `m` flag. A `//` at a line start, or a whitespace character followed
   * by `//`, is removed up to the end of its line; the whitespace character
   * goes with it, even when it is the line break before the comment.
   */
  function StripLineComments(s: string, atLineStart: bool): (r: string)
    ensures |r| <= |s|
    decreases |s|
  {
    if s == [] then []
    else if atLineStart && IsAt(s, "//", 0) then
      StripLineComments(s[LineEnd(s)..], false)
    else if IsSpace(s[0]) && IsAt(s, "//", 1) then
      StripLineComments(s[1 + LineEnd(s[1..])..], false)
    else [s[0]] + StripLineComments(s[1..], IsLineTerminator(s[0]))
  }

  /** `stripComments`, which does not know about string literals. */
  function StripComments(s: string): (r: string)
    ensures |r| <= |s|
  {
    StripLineComments(StripBlockComments(s), true)
  }

  lemma {:induction false} StripBlockCommentsNoSlash(s: string)
    requires '/' !in s
    ensures StripBlockComments(s) == s
    decreases |s|
  {
    if |s| >= 2 {
      StripBlockCommentsNoSlash(s[1..]);
    }
  }

  lemma {:induction false} StripLineCommentsNoSlash(s: string, atLineStart: bool)
    requires '/' !in s
    ensures StripLineComments(s, atLineStart) == s
    decreases |s|
  {
    if s != [] {
      assert !IsAt(s, "//", 0) by { if |s| >= 2 { assert s[0] != '/'; } }
      assert !IsAt(s, "//", 1) by { if |s| >= 3 { assert s[1] != '/'; } }
      StripLineCommentsNoSlash(s[1..], IsLineTerminator(s[0]));
    }
  }

  /** Text without a slash has no comment and passes unchanged. */
  lemma StripCommentsNoSlash(s: string)
    requires '/' !in s
    ensures StripComments(s) == s
  {
    StripBlockCommentsNoSlash(s);
    StripLineCommentsNoSlash(s, true);
  }

  /**
   * A character that is neither a slash nor a line terminator, and is not
   * whitespace right before a slash, is copied as it is.
   */
  lemma StripLineCommentsCopies(s: string, atLineStart: bool)
    requires 2 <= |s| && s[0] != '/' && !IsLineTerminator(s[0]) && (IsSpace(s[0]) ==> s[1] != '/')
    ensures StripLineComments(s, atLineStart) == [s[0]] + StripLineComments(s[1..], false)
  {
    assert !IsAt(s, "//", 0) by { assert s[0] != '/'; }
    assert IsSpace(s[0]) ==> !IsAt(s, "//", 1) by { assert IsSpace(s[0]) ==> s[1] != '/'; }
  }

  /**
   * The pass is not string-aware: a ` //` inside a JSON string value is taken
   * for a comment and the rest of the line, closing quote and brace included,
   * is dropped.
   */
  lemma StripCommentsInsideString(s: string)
    requires s == "\"a //b\""
    ensures StripComments(s) == "\"a"
  {
    StripBlockCommentsNoStar(s);
    var t := s[1..];
    assert t[1..] == s[2..] && t[0] == 'a' && t[1] == ' ';
    StripLineCommentsCopies(s, true);
    StripLineCommentsCopies(t, false);
    var rest := s[2..];
    assert rest == " //b\"";
    OneLine(rest);
    TrailingLineComment(rest);
  }

  lemma OneLine(t: string)
    requires t == " //b\""
    ensures forall i :: 0 <= i < |t| ==> !IsLineTerminator(t[i])
  {
    forall i | 0 <= i < |t| ensures !IsLineTerminator(t[i]) {
      assert t[i] in {' ', '/', 'b', '"'};
    }
  }

  /** A whitespace character, `//` and the rest of the last line are all removed. */
  lemma TrailingLineComment(t: string)
    requires 3 <= |t| && IsSpace(t[0]) && t[1] == '/' && t[2] == '/'
    requires forall i :: 0 <= i < |t| ==> !IsLineTerminator(t[i])
    ensures StripLineComments(t, false) == []
  {
    assert IsAt(t, "//", 1) by { assert t[1..3] == "//"; }
    LineEndAll(t[1..]);
    assert t[1 + LineEnd(t[1..])..] == [];
  }

  /** A text without a line terminator is one line. */
  lemma {:induction false} LineEndAll(s: string)
    requires forall i :: 0 <= i < |s| ==> !IsLineTerminator(s[i])
    ensures LineEnd(s) == |s|
  {
    if s != [] {
      LineEndAll(s[1..]);
    }
  }

  lemma {:induction false} StripBlockCommentsNoStar(s: string)
    requires '*' !in s
    ensures StripBlockComments(s) == s
    decreases |s|
  {
    if |s| >= 2 {
      StripBlockCommentsNoStar(s[1..]);
    }
  }

  // ---------------------------------------------------------------------------
  // The `"measured"` field: `.replace(/"measured"\s*:\s*\{[^}]*\}\s*,?/g, '')`

  /** Every character of `s` from `i` up to `j` is whitespace. */
  predicate SpacesFrom(s: string, i: nat, j: nat) {
    i <= j <= |s| && forall k :: i <= k < j ==> IsSpace(s[k])
  }

  /** The whitespace run at `i` ends at `j`: at the end of `s` or at a non-space. */
  predicate SpaceRun(s: string, i: nat, j: nat) {
    SpacesFrom(s, i, j) && (j == |s| || !IsSpace(s[j]))
  }

  /** The whitespace run at `i` ends at `i + LeadingSpaces(s[i..])`. */
  lemma SpaceRunAt(s: string, i: nat)
    requires i <= |s|
    ensures SpaceRun(s, i, i + LeadingSpaces(s[i..]))
  {
    var n := LeadingSpaces(s[i..]);
    assert forall k :: i <= k < i + n ==> s[k] == s[i..][..n][k - i];
    assert i + n < |s| ==> s[i + n] == s[i..][n];
  }

  /** A whitespace run ends in one place only. */
  lemma SpaceRunUnique(s: string, i: nat, j: nat, j': nat)
    requires SpaceRun(s, i, j) && SpaceRun(s, i, j')
    ensures j == j'
  {
  }

  /**
   * `"measured"\s*:\s*\{[^}]*\}\s*,?` laid over the start of `s`: the key,
   * spaces up to the `:` at `a`, spaces up to the `{` at `b`, the first `}`
   * after it at `c`, and the spaces after it, which end at `d`.
   */
  predicate MeasuredAt(s: string, a: nat, b: nat, c: nat, d: nat) {
    && IsAt(s, "\"measured\"", 0)
    && 10 <= a < b < c < d <= |s|
    && SpaceRun(s, 10, a) && s[a] == ':'
    && SpaceRun(s, a + 1, b) && s[b] == '{'
    && (forall k :: b < k < c ==> s[k] != '}') && s[c] == '}'
    && SpaceRun(s, c + 1, d)
  }

  /** How far the match laid out by `MeasuredAt` reaches: through the optional comma after the spaces. */
  function MeasuredEnd(s: string, d: nat): nat
    requires d <= |s|
  {
    if d < |s| && s[d] == ',' then d + 1 else d
  }

  /**
   * The length of the match of `"measured"\s*:\s*\{[^}]*\}\s*,?` at the
   * start of `s`, if any: the key, the `:`, the `{`, the first `}` after
   * it, and the spaces and optional comma that follow, so 13 characters at
   * least. Each part of the pattern is matched by one of the functions below.
   */
  function MeasuredMatch(s: string): (m: Option<nat>)
    ensures m.Some? ==> 13 <= m.value <= |s|
  {
    if !IsAt(s, "\"measured\"", 0) then None
    else MeasuredColon(s, 10 + LeadingSpaces(s[10..]))
  }

  /** The `:` the spaces after the key lead to, at `a`. */
  function MeasuredColon(s: string, a: nat): (m: Option<nat>)
    requires 10 <= a <= |s|
    ensures m.Some? ==> a + 3 <= m.value <= |s|
  {
    if a == |s| || s[a] != ':' then None
    else MeasuredBrace(s, a + 1 + LeadingSpaces(s[a + 1..]))
  }

  /** The `{` the spaces after the `:` lead to, at `b`. */
  function MeasuredBrace(s: string, b: nat): (m: Option<nat>)
    requires b <= |s|
    ensures m.Some? ==> b + 2 <= m.value <= |s|
  {
    if b == |s| || s[b] != '{' then None
    else MeasuredClose(s, IndexOfChar(s, '}', b + 1))
  }

  /** The first `}` after the `{`, at `c`, then the spaces and the optional comma. */
  function MeasuredClose(s: string, c: nat): (m: Option<nat>)
    requires c <= |s|
    ensures m.Some? ==> c + 1 <= m.value <= |s|
  {
    if c == |s| then None
    else Some(MeasuredEnd(s, c + 1 + LeadingSpaces(s[c + 1..])))
  }

  /** A whitespace run found any way is the one `LeadingSpaces` measures. */
  lemma SpaceRunLeading(s: string, i: nat, j: nat)
    requires SpaceRun(s, i, j)
    ensures j == i + LeadingSpaces(s[i..])
  {
    SpaceRunAt(s, i);
    SpaceRunUnique(s, i, j, i + LeadingSpaces(s[i..]));
  }

  /** The first `}` after `b` is the one `IndexOfChar` finds. */
  lemma FirstCloser(s: string, b: nat, c: nat)
    requires b < c < |s| && s[c] == '}'
    requires forall k :: b < k < c ==> s[k] != '}'
    ensures c == IndexOfChar(s, '}', b + 1)
  {
  }

  /** What `MeasuredMatch` finds is the pattern laid over the start of `s`, through its optional comma. */
  lemma MeasuredMatchSound(s: string)
    requires MeasuredMatch(s).Some?
    ensures exists a, b, c, d :: MeasuredAt(s, a, b, c, d) && MeasuredMatch(s).value == MeasuredEnd(s, d)
  {
    var a := KeyFound(s);
    var b := ColonFound(s, a);
    var c := BraceFound(s, b);
    var d := CloseFound(s, c);
    assert MeasuredAt(s, a, b, c, d);
  }

  lemma KeyFound(s: string) returns (a: nat)
    requires MeasuredMatch(s).Some?
    ensures IsAt(s, "\"measured\"", 0) && 10 <= a <= |s| && a == 10 + LeadingSpaces(s[10..])
    ensures SpaceRun(s, 10, a)
    ensures MeasuredMatch(s) == MeasuredColon(s, a)
  {
    a := 10 + LeadingSpaces(s[10..]);
    SpaceRunAt(s, 10);
  }

  lemma ColonFound(s: string, a: nat) returns (b: nat)
    requires 10 <= a <= |s| && MeasuredColon(s, a).Some?
    ensures a < b <= |s| && s[a] == ':' && b == a + 1 + LeadingSpaces(s[a + 1..])
    ensures SpaceRun(s, a + 1, b)
    ensures MeasuredColon(s, a) == MeasuredBrace(s, b)
  {
    b := a + 1 + LeadingSpaces(s[a + 1..]);
    SpaceRunAt(s, a + 1);
  }

  lemma BraceFound(s: string, b: nat) returns (c: nat)
    requires b <= |s| && MeasuredBrace(s, b).Some?
    ensures b < c <= |s| && s[b] == '{' && c == IndexOfChar(s, '}', b + 1)
    ensures forall k :: b < k < c ==> s[k] != '}'
    ensures c < |s| ==> s[c] == '}'
    ensures MeasuredBrace(s, b) == MeasuredClose(s, c)
  {
    c := IndexOfChar(s, '}', b + 1);
  }

  lemma CloseFound(s: string, c: nat) returns (d: nat)
    requires c <= |s| && MeasuredClose(s, c).Some?
    ensures c < d <= |s| && d == c + 1 + LeadingSpaces(s[c + 1..])
    ensures SpaceRun(s, c + 1, d)
    ensures MeasuredClose(s, c) == Some(MeasuredEnd(s, d))
  {
    d := c + 1 + LeadingSpaces(s[c + 1..]);
    SpaceRunAt(s, c + 1);
  }

  /** Wherever the pattern can be laid over the start of `s`, that is the match found. */
  lemma MeasuredMatchFound(s: string, a: nat, b: nat, c: nat, d: nat)
    requires MeasuredAt(s, a, b, c, d)
    ensures MeasuredMatch(s) == Some(MeasuredEnd(s, d))
  {
    MeasuredLengths(s, a, b, c, d);
    MeasuredSteps(s, a, b, c, d);
  }

  /** The positions laid out by `MeasuredAt` are the ones the matcher measures. */
  lemma MeasuredLengths(s: string, a: nat, b: nat, c: nat, d: nat)
    requires MeasuredAt(s, a, b, c, d)
    ensures a == 10 + LeadingSpaces(s[10..]) && b == a + 1 + LeadingSpaces(s[a + 1..])
    ensures c == IndexOfChar(s, '}', b + 1) && d == c + 1 + LeadingSpaces(s[c + 1..])
  {
    KeyColonLengths(s, a, b);
    BraceCloseLengths(s, b, c, d);
  }

  lemma KeyColonLengths(s: string, a: nat, b: nat)
    requires 10 <= a < b <= |s| && SpaceRun(s, 10, a) && SpaceRun(s, a + 1, b)
    ensures a == 10 + LeadingSpaces(s[10..]) && b == a + 1 + LeadingSpaces(s[a + 1..])
  {
    SpaceRunLeading(s, 10, a);
    SpaceRunLeading(s, a + 1, b);
  }

  lemma BraceCloseLengths(s: string, b: nat, c: nat, d: nat)
    requires b < c < d <= |s| && s[c] == '}' && (forall k :: b < k < c ==> s[k] != '}') && SpaceRun(s, c + 1, d)
    ensures c == IndexOfChar(s, '}', b + 1) && d == c + 1 + LeadingSpaces(s[c + 1..])
  {
    FirstCloser(s, b, c);
    SpaceRunLeading(s, c + 1, d);
  }

  /** The matcher's steps, one part of the pattern at a time. */
  lemma MeasuredSteps(s: string, a: nat, b: nat, c: nat, d: nat)
    requires IsAt(s, "\"measured\"", 0) && 10 <= a < b < c < d <= |s|
    requires s[a] == ':' && s[b] == '{'
    requires a == 10 + LeadingSpaces(s[10..]) && b == a + 1 + LeadingSpaces(s[a + 1..])
    requires c == IndexOfChar(s, '}', b + 1) && d == c + 1 + LeadingSpaces(s[c + 1..])
    ensures MeasuredMatch(s) == Some(MeasuredEnd(s, d))
  {
    var a' := MeasuredKeyAt(s);
    ColonOnward(s, a, b, c, d);
  }

  lemma ColonOnward(s: string, a: nat, b: nat, c: nat, d: nat)
    requires 10 <= a < b < c < d <= |s| && s[a] == ':' && s[b] == '{'
    requires b == a + 1 + LeadingSpaces(s[a + 1..])
    requires c == IndexOfChar(s, '}', b + 1) && d == c + 1 + LeadingSpaces(s[c + 1..])
    ensures MeasuredColon(s, a) == Some(MeasuredEnd(s, d))
  {
    var b' := ColonAt(s, a);
    BraceOnward(s, b, c, d);
  }

  lemma BraceOnward(s: string, b: nat, c: nat, d: nat)
    requires b < c < d <= |s| && s[b] == '{'
    requires c == IndexOfChar(s, '}', b + 1) && d == c + 1 + LeadingSpaces(s[c + 1..])
    ensures MeasuredBrace(s, b) == Some(MeasuredEnd(s, d))
  {
    var c' := BraceAt(s, b);
    var d' := CloseAt(s, c);
  }

  lemma MeasuredKeyAt(s: string) returns (a: nat)
    requires IsAt(s, "\"measured\"", 0)
    ensures a == 10 + LeadingSpaces(s[10..]) && MeasuredMatch(s) == MeasuredColon(s, a)
  {
    a := 10 + LeadingSpaces(s[10..]);
  }

  lemma ColonAt(s: string, a: nat) returns (b: nat)
    requires 10 <= a < |s| && s[a] == ':'
    ensures b == a + 1 + LeadingSpaces(s[a + 1..]) && MeasuredColon(s, a) == MeasuredBrace(s, b)
  {
    b := a + 1 + LeadingSpaces(s[a + 1..]);
  }

  lemma BraceAt(s: string, b: nat) returns (c: nat)
    requires b < |s| && s[b] == '{'
    ensures c == IndexOfChar(s, '}', b + 1) && MeasuredBrace(s, b) == MeasuredClose(s, c)
  {
    c := IndexOfChar(s, '}', b + 1);
  }

  lemma CloseAt(s: string, c: nat) returns (d: nat)
    requires c < |s|
    ensures d == c + 1 + LeadingSpaces(s[c + 1..]) && MeasuredClose(s, c) == Some(MeasuredEnd(s, d))
  {
    d := c + 1 + LeadingSpaces(s[c + 1..]);
  }

  /** `stripMeasured`: every `"measured": {…}` field, with its trailing comma, removed. */
  function StripMeasured(s: string): (r: string)
    ensures |r| <= |s|
    decreases |s|
  {
    if s == [] then []
    else
      match MeasuredMatch(s)
      case Some(n) => StripMeasured(s[n..])
      case None => [s[0]] + StripMeasured(s[1..])
  }

  /** Text that never mentions `"measured"` passes unchanged. */
  lemma {:induction false} StripMeasuredAbsent(s: string)
    requires forall i :: 0 <= i <= |s| ==> !IsAt(s, "\"measured\"", i)
    ensures StripMeasured(s) == s
    decreases |s|
  {
    if s != [] {
      assert !IsAt(s, "\"measured\"", 0);
      forall i | 0 <= i <= |s[1..]| ensures !IsAt(s[1..], "\"measured\"", i) {
        assert !IsAt(s, "\"measured\"", i + 1);
        if i + 10 <= |s[1..]| { assert s[1..][i..i + 10] == s[i + 1..i + 11]; }
      }
      StripMeasuredAbsent(s[1..]);
    }
  }

  /** On `"measured":{},…` the match covers the field and its comma, and nothing after. */
  lemma MeasuredMatchExample(t: string)
    requires IsAt(t, "\"measured\"", 0) && IsAt(t, ":{},", 10)
    ensures MeasuredMatch(t) == Some(14)
  {
    assert t[10..14] == ":{},";
    var a := 10 + LeadingSpaces(t[10..]);
    assert a == 10 && t[a] == ':' by { assert t[10] == ':'; }
    var b := a + 1 + LeadingSpaces(t[a + 1..]);
    assert b == 11 && t[b] == '{' by { assert t[11] == '{'; }
    var c := IndexOfChar(t, '}', b + 1);
    assert c == 12 by { assert t[12] == '}'; }
    var d := c + 1 + LeadingSpaces(t[c + 1..]);
    assert d == 13 && t[d] == ',' by { assert t[13] == ','; }
  }

  // ---------------------------------------------------------------------------
  // What a pass keeps

  /** The characters of `s` that satisfy `keep`, in order. */
  function Filter(s: string, keep: char -> bool): (r: string)
    ensures |r| <= |s|
  {
    if s == [] then [] else (if keep(s[0]) then [s[0]] else []) + Filter(s[1..], keep)
  }

  lemma {:induction false} FilterAppend(a: string, b: string, keep: char -> bool)
    ensures Filter(a + b, keep) == Filter(a, keep) + Filter(b, keep)
    decreases |a|
  {
    if a != [] {
      assert (a + b)[0] == a[0];
      assert (a + b)[1..] == a[1..] + b;
      FilterAppend(a[1..], b, keep);
      var h := if keep(a[0]) then [a[0]] else [];
      calc {
        Filter(a + b, keep);
        h + Filter(a[1..] + b, keep);
        h + (Filter(a[1..], keep) + Filter(b, keep));
        (h + Filter(a[1..], keep)) + Filter(b, keep);
        Filter(a, keep) + Filter(b, keep);
      }
    } else {
      assert a + b == b;
    }
  }

  lemma {:induction false} FilterNone(s: string, keep: char -> bool)
    requires forall i :: 0 <= i < |s| ==> !keep(s[i])
    ensures Filter(s, keep) == []
    decreases |s|
  {
    if s != [] {
      FilterNone(s[1..], keep);
    }
  }

  /** Neither a comma nor whitespace. */
  predicate IsEssential(c: char) {
    c != ',' && !IsSpace(c)
  }

  /** Not whitespace. */
  predicate IsVisible(c: char) {
    !IsSpace(c)
  }

  /** Neither whitespace nor a double quote. */
  predicate IsBare(c: char) {
    !IsSpace(c) && c != '"'
  }

  // ---------------------------------------------------------------------------
  // Trailing commas: `.replace(/,\s*([}\]])/g, '$1')`

  predicate IsCloser(c: char) {
    c == '}' || c == ']'
  }

  /** `s.replace(/,\s*([}\]])/g, '$1')`: a comma, whitespace, then a closer keeps only the closer. */
  function StripTrailingCommas(s: string): (r: string)
    ensures |r| <= |s|
    decreases |s|
  {
    if s == [] then []
    else if s[0] == ',' && 1 + LeadingSpaces(s[1..]) < |s| && IsCloser(s[1 + LeadingSpaces(s[1..])]) then
      var j := 1 + LeadingSpaces(s[1..]);
      [s[j]] + StripTrailingCommas(s[j + 1..])
    else [s[0]] + StripTrailingCommas(s[1..])
  }

  /**
   * Removing trailing commas deletes only commas and whitespace: every other
   * character, brackets and braces included, survives in order.
   */
  lemma {:induction false} StripTrailingCommasEssence(s: string)
    ensures Filter(StripTrailingCommas(s), IsEssential) == Filter(s, IsEssential)
    decreases |s|
  {
    if s != [] {
      var j := 1 + LeadingSpaces(s[1..]);
      var r := StripTrailingCommas(s);
      if s[0] == ',' && j < |s| && IsCloser(s[j]) {
        StripTrailingCommasEssence(s[j + 1..]);
        EssentialHead(r, s[j], StripTrailingCommas(s[j + 1..]));
        assert s[1..j] == s[1..][..j - 1];
        CommaGapEssence(s, j);
      } else {
        StripTrailingCommasEssence(s[1..]);
        EssentialHead(r, s[0], StripTrailingCommas(s[1..]));
        if IsEssential(s[0]) {
          FilterKeepsHead(s, IsEssential);
        }
      }
    }
  }

  lemma EssentialHead(r: string, c: char, rest: string)
    requires r == [c] + rest
    ensures Filter(r, IsEssential) == (if IsEssential(c) then [c] else []) + Filter(rest, IsEssential)
  {
    assert r[0] == c && r[1..] == rest;
  }

  /** A comma, whitespace, then a kept character: only that character is kept of the three. */
  lemma CommaGapEssence(s: string, j: nat)
    requires 1 <= j < |s| && s[0] == ',' && AllSpace(s[1..j]) && IsEssential(s[j])
    ensures Filter(s, IsEssential) == [s[j]] + Filter(s[j + 1..], IsEssential)
  {
    FilterSplit(s, j, IsEssential);
    forall i | 0 <= i < j ensures !IsEssential(s[..j][i]) {
      if i > 0 {
        assert s[..j][i] == s[1..j][i - 1];
      }
    }
    FilterNone(s[..j], IsEssential);
    FilterKeepsHead(s[j..], IsEssential);
    assert s[j..][1..] == s[j + 1..];
  }

  /** A comma before a closer is removed. */
  lemma TrailingCommaExample()
    ensures StripTrailingCommas("[1, ]") == "[1]"
  {
    assert StripTrailingCommas("]") == "]";
  }

  /**
   * One pass does not remove every comma that ends up before a closer: of two
   * commas in a row only the second goes.
   */
  lemma TrailingCommasOnePass()
    ensures StripTrailingCommas(",,]") == ",]"
  {
    assert StripTrailingCommas("]") == "]";
    assert StripTrailingCommas(",]") == "]";
  }

  // ---------------------------------------------------------------------------
  // Blank lines: `.replace(/\n\s*\n/g, '\n')`

  /** The index just past the last `\n` of `s`, or 0 when there is none. */
  function AfterLastNewline(s: string): (k: nat)
    ensures k <= |s|
    ensures k > 0 ==> s[k - 1] == '\n'
    ensures forall i :: k <= i < |s| ==> s[i] != '\n'
  {
    if s == [] then 0
    else if s[|s| - 1] == '\n' then |s|
    else AfterLastNewline(s[..|s| - 1])
  }

  /** The whitespace run that follows the first character of `s`. */
  function SpaceRunAfterFirst(s: string): (w: string)
    requires s != []
    ensures |w| < |s| && w == s[1..1 + |w|] && AllSpace(w)
  {
    var w := s[1..][..LeadingSpaces(s[1..])];
    assert w == s[1..1 + |w|];
    w
  }

  /**
   * `s.replace(/\n\s*\n/g, '\n')`. The greedy `\s*` runs to the end of the
   * whitespace after the first `\n` and backs off to its last `\n`, so a whole
   * run of blank lines becomes one line break.
   */
  function CollapseBlankLines(s: string): (r: string)
    ensures |r| <= |s|
    decreases |s|
  {
    if s == [] then []
    else if s[0] == '\n' && AfterLastNewline(SpaceRunAfterFirst(s)) > 0 then
      "\n" + CollapseBlankLines(s[1 + AfterLastNewline(SpaceRunAfterFirst(s))..])
    else [s[0]] + CollapseBlankLines(s[1..])
  }

  /** Leading whitespace is invisible. */
  lemma DropSpaces(s: string, n: nat)
    requires n <= |s| && AllSpace(s[..n])
    ensures Filter(s, IsVisible) == Filter(s[n..], IsVisible)
  {
    FilterNone(s[..n], IsVisible);
    FilterSplit(s, n, IsVisible);
    assert [] + Filter(s[n..], IsVisible) == Filter(s[n..], IsVisible);
  }

  /** The text a blank-line match covers is all whitespace. */
  lemma BlankRunSpaces(s: string)
    requires s != [] && s[0] == '\n'
    ensures AllSpace(s[..1 + AfterLastNewline(SpaceRunAfterFirst(s))])
  {
    var w := SpaceRunAfterFirst(s);
    var gap := s[..1 + AfterLastNewline(w)];
    forall i | 0 <= i < |gap| ensures IsSpace(gap[i]) {
      if i > 0 { assert gap[i] == w[i - 1]; }
    }
  }

  /** Collapsing blank lines deletes only whitespace. */
  lemma {:induction false} CollapseBlankLinesVisible(s: string)
    ensures Filter(CollapseBlankLines(s), IsVisible) == Filter(s, IsVisible)
    decreases |s|
  {
    if s != [] {
      var k := AfterLastNewline(SpaceRunAfterFirst(s));
      var r := CollapseBlankLines(s);
      if s[0] == '\n' && k > 0 {
        var rest := CollapseBlankLines(s[1 + k..]);
        CollapseBlankLinesVisible(s[1 + k..]);
        BlankRunSpaces(s);
        DropSpaces(s, 1 + k);
        assert r == "\n" + rest;
        assert r[0] == '\n' && r[1..] == rest;
      } else {
        CollapseBlankLinesVisible(s[1..]);
        var rest := CollapseBlankLines(s[1..]);
        assert r == [s[0]] + rest;
        assert r[0] == s[0] && r[1..] == rest;
      }
    }
  }

  // ---------------------------------------------------------------------------
  // Repair pass: bare keys and single quotes

  predicate IsIdentStart(c: char) {
    ('a' <= c <= 'z') || ('A' <= c <= 'Z') || c == '_' || c == '$'
  }

  predicate IsIdentPart(c: char) {
    IsIdentStart(c) || ('0' <= c <= '9')
  }

  /** Length of the longest prefix of `s` made of identifier characters. */
  function IdentLength(s: string): (n: nat)
    ensures n <= |s|
    ensures forall i :: 0 <= i < n ==> IsIdentPart(s[i])
    ensures n < |s| ==> !IsIdentPart(s[n])
  {
    if s == [] || !IsIdentPart(s[0]) then 0 else 1 + IdentLength(s[1..])
  }

  /**
   * A match of `([{,]\s*)([a-zA-Z_$][a-zA-Z0-9_$]*)\s*:` at the start of `s`:
   * where the key starts, where it ends and where the match ends.
   */
  datatype KeyMatch = KeyMatch(keyStart: nat, keyEnd: nat, matchEnd: nat)

  /** The whitespace run starting at `i`. */
  lemma SpacesAt(s: string, i: nat, j: nat)
    requires i <= |s| && j == i + LeadingSpaces(s[i..])
    ensures j <= |s| && AllSpace(s[i..j])
  {
    assert s[i..j] == s[i..][..j - i];
  }

  /** The colon part of the match: whitespace from `b`, then `:`. */
  function ColonAfter(s: string, a: nat, b: nat): (m: Option<KeyMatch>)
    requires a < b <= |s|
    ensures m.Some? ==> m.value.keyStart == a && m.value.keyEnd == b && b < m.value.matchEnd <= |s|
    ensures m.Some? ==> AllSpace(s[b..m.value.matchEnd - 1]) && s[m.value.matchEnd - 1] == ':'
  {
    var c := b + LeadingSpaces(s[b..]);
    SpacesAt(s, b, c);
    if c == |s| || s[c] != ':' then None else Some(KeyMatch(a, b, c + 1))
  }

  /** The key part of the match: an identifier starting at `a`, then the colon part. */
  function KeyAt(s: string, a: nat): (m: Option<KeyMatch>)
    requires a <= |s|
    ensures m.Some? ==> m.value.keyStart == a < m.value.keyEnd < m.value.matchEnd <= |s|
    ensures m.Some? ==> IsIdentStart(s[a])
    ensures m.Some? ==> AllSpace(s[m.value.keyEnd..m.value.matchEnd - 1]) && s[m.value.matchEnd - 1] == ':'
  {
    if a == |s| || !IsIdentStart(s[a]) then None
    else ColonAfter(s, a, a + IdentLength(s[a..]))
  }

  function BareKeyMatch(s: string): (m: Option<KeyMatch>)
    ensures m.Some? ==> 1 <= m.value.keyStart < m.value.keyEnd < m.value.matchEnd <= |s|
    ensures m.Some? ==> AllSpace(s[1..m.value.keyStart]) && AllSpace(s[m.value.keyEnd..m.value.matchEnd - 1])
    ensures m.Some? ==> s[m.value.matchEnd - 1] == ':' && (s[0] == '{' || s[0] == ',')
    ensures m.Some? ==> IsIdentStart(s[m.value.keyStart])
  {
    if s == [] || (s[0] != '{' && s[0] != ',') then None
    else
      var a := 1 + LeadingSpaces(s[1..]);
      SpacesAt(s, 1, a);
      var m := KeyAt(s, a);
      assert m.Some? ==> m.value.keyStart == a;
      m
  }

  /** `s.replace(/([{,]\s*)([a-zA-Z_$][a-zA-Z0-9_$]*)\s*:/g, '$1"$2":')`. */
  function QuoteBareKeys(s: string): (r: string)
    decreases |s|
  {
    if s == [] then []
    else
      match BareKeyMatch(s)
      case Some(m) =>
        s[..m.keyStart] + "\"" + s[m.keyStart..m.keyEnd] + "\":" + QuoteBareKeys(s[m.matchEnd..])
      case None => [s[0]] + QuoteBareKeys(s[1..])
  }

  /** Filtering a text that starts with a character the filter keeps. */
  lemma FilterKeepsHead(s: string, keep: char -> bool)
    requires s != [] && keep(s[0])
    ensures Filter(s, keep) == [s[0]] + Filter(s[1..], keep)
  {
  }

  /** Filtering `s` in two pieces, cut at `k`. */
  lemma FilterSplit(s: string, k: nat, keep: char -> bool)
    requires k <= |s|
    ensures Filter(s, keep) == Filter(s[..k], keep) + Filter(s[k..], keep)
  {
    assert s == s[..k] + s[k..];
    FilterAppend(s[..k], s[k..], keep);
  }

  /** Whitespace, then a colon: with quotes and whitespace ignored, only the colon is left. */
  lemma GapColonBare(t: string, c: nat)
    requires 0 < c <= |t| && Filter(t[..c - 1], IsBare) == [] && t[c - 1] == ':'
    ensures Filter(t, IsBare) == ":" + Filter(t[c..], IsBare)
  {
    var colon := t[c - 1..];
    FilterSplit(t, c - 1, IsBare);
    assert Filter(t, IsBare) == Filter(colon, IsBare);
    ColonBare(colon);
    assert colon[1..] == t[c..];
  }

  lemma ColonBare(s: string)
    requires s != [] && s[0] == ':'
    ensures Filter(s, IsBare) == ":" + Filter(s[1..], IsBare)
  {
    assert IsBare(':');
    FilterKeepsHead(s, IsBare);
  }

  /** With quotes and whitespace ignored, `s` is its prefix, its key, the colon and the rest. */
  lemma KeyMatchBare(s: string, a: nat, b: nat, c: nat)
    requires a <= b < c <= |s| && Filter(s[b..c - 1], IsBare) == [] && s[c - 1] == ':'
    ensures Filter(s, IsBare) == Filter(s[..a], IsBare) + Filter(s[a..b], IsBare) + (":" + Filter(s[c..], IsBare))
  {
    GapColonAt(s, b, c);
    FilterPrefix(s, a, b, IsBare);
    FilterSplit(s, b, IsBare);
  }

  lemma GapColonAt(s: string, b: nat, c: nat)
    requires b < c <= |s| && Filter(s[b..c - 1], IsBare) == [] && s[c - 1] == ':'
    ensures Filter(s[b..], IsBare) == ":" + Filter(s[c..], IsBare)
  {
    var t := s[b..];
    assert t[..c - b - 1] == s[b..c - 1] && t[c - b..] == s[c..];
    GapColonBare(t, c - b);
  }

  lemma FilterPrefix(s: string, a: nat, b: nat, keep: char -> bool)
    requires a <= b <= |s|
    ensures Filter(s[..b], keep) == Filter(s[..a], keep) + Filter(s[a..b], keep)
  {
    assert s[..b][..a] == s[..a] && s[..b][a..] == s[a..b];
    FilterSplit(s[..b], a, keep);
  }

  lemma QuoteColonBare(rest: string)
    ensures Filter("\":" + rest, IsBare) == ":" + Filter(rest, IsBare)
  {
    var close, colon := "\":" + rest, ":" + rest;
    assert colon[0] == ':' && colon[1..] == rest;
    FilterKeepsHead(colon, IsBare);
    assert close[0] == '"' && close[1..] == colon;
  }

  lemma QuoteAfterBare(pre: string)
    ensures Filter(pre + "\"", IsBare) == Filter(pre, IsBare)
  {
    FilterAppend(pre, "\"", IsBare);
    assert "\""[1..] == [];
  }

  /** With quotes and whitespace ignored, the quoted output is the prefix, the key, the colon and the rest. */
  lemma QuotedKeyBare(pre: string, key: string, rest: string)
    ensures Filter(pre + "\"" + key + "\":" + rest, IsBare)
         == Filter(pre, IsBare) + Filter(key, IsBare) + (":" + Filter(rest, IsBare))
  {
    var open, close := pre + "\"", "\":" + rest;
    QuoteColonBare(rest);
    QuoteAfterBare(pre);
    assert pre + "\"" + key + "\":" + rest == open + key + close;
    FilterAppend(open + key, close, IsBare);
    FilterAppend(open, key, IsBare);
  }

  /** Between a matched key and its colon there is only whitespace. */
  lemma KeyMatchGap(s: string, m: KeyMatch)
    requires BareKeyMatch(s) == Some(m)
    ensures m.keyStart <= m.keyEnd < m.matchEnd <= |s| && s[m.matchEnd - 1] == ':'
    ensures Filter(s[m.keyEnd..m.matchEnd - 1], IsBare) == []
  {
    var gap := s[m.keyEnd..m.matchEnd - 1];
    forall i | 0 <= i < |gap| ensures !IsBare(gap[i]) {
      assert IsSpace(gap[i]);
    }
    FilterNone(gap, IsBare);
  }

  /** A matched key unfolds the quoting pass once. */
  lemma KeyMatchQuoted(s: string, m: KeyMatch)
    requires BareKeyMatch(s) == Some(m)
    ensures QuoteBareKeys(s) == s[..m.keyStart] + "\"" + s[m.keyStart..m.keyEnd] + "\":" + QuoteBareKeys(s[m.matchEnd..])
  {
  }

  lemma QuoteMatchedKeyBare(s: string, m: KeyMatch)
    requires BareKeyMatch(s) == Some(m)
    requires Filter(QuoteBareKeys(s[m.matchEnd..]), IsBare) == Filter(s[m.matchEnd..], IsBare)
    ensures Filter(QuoteBareKeys(s), IsBare) == Filter(s, IsBare)
  {
    KeyMatchGap(s, m);
    KeyMatchBare(s, m.keyStart, m.keyEnd, m.matchEnd);
    KeyMatchQuoted(s, m);
    QuotedKeyBare(s[..m.keyStart], s[m.keyStart..m.keyEnd], QuoteBareKeys(s[m.matchEnd..]));
  }

  /**
   * Quoting bare keys only adds double quotes and drops the whitespace between
   * a key and its colon: with quotes and whitespace ignored, the text is the same.
   */
  lemma {:induction false} QuoteBareKeysBare(s: string)
    ensures Filter(QuoteBareKeys(s), IsBare) == Filter(s, IsBare)
    decreases |s|
  {
    if s != [] {
      match BareKeyMatch(s)
      case Some(m) =>
        QuoteBareKeysBare(s[m.matchEnd..]);
        QuoteMatchedKeyBare(s, m);
      case None =>
        QuoteBareKeysBare(s[1..]);
        var rest := QuoteBareKeys(s[1..]);
        var r := [s[0]] + rest;
        assert r[0] == s[0] && r[1..] == rest;
    }
  }

  /** The key `a` of `{a :1}` is matched with the space before its colon. */
  lemma BareKeyMatchExample(s: string)
    requires s == "{a :1}"
    ensures BareKeyMatch(s) == Some(KeyMatch(1, 2, 4))
  {
    assert LeadingSpaces(s[1..]) == 0 by { assert s[1] == 'a'; }
    assert IdentLength(s[1..]) == 1 by {
      assert s[1..][1..] == " :1}";
      assert IdentLength(" :1}") == 0;
    }
    assert LeadingSpaces(s[2..]) == 1 by {
      assert s[2..][1..] == ":1}";
      assert LeadingSpaces(":1}") == 0;
    }
  }

  /** Text with no `{` or `,` is left alone. */
  lemma {:induction false} QuoteBareKeysNoOpener(s: string)
    requires '{' !in s && ',' !in s
    ensures QuoteBareKeys(s) == s
    decreases |s|
  {
    if s != [] {
      assert BareKeyMatch(s) == None;
      QuoteBareKeysNoOpener(s[1..]);
    }
  }

  /** A bare key is quoted and the space before its colon dropped. */
  lemma QuoteBareKeysExample(s: string)
    requires s == "{a :1}"
    ensures QuoteBareKeys(s) == "{\"a\":1}"
  {
    BareKeyMatchExample(s);
    KeyMatchQuoted(s, KeyMatch(1, 2, 4));
    var rest := s[4..];
    assert s[..1] == "{" && s[1..2] == "a" && rest == "1}";
    QuoteBareKeysNoOpener(rest);
  }

  /** `s.replace(/'/g, '"')`. */
  function SingleToDoubleQuotes(s: string): (r: string)
    ensures |r| == |s|
    ensures '\'' !in r
    ensures forall i :: 0 <= i < |s| ==> r[i] == if s[i] == '\'' then '"' else s[i]
  {
    seq(|s|, i requires 0 <= i < |s| => if s[i] == '\'' then '"' else s[i])
  }
}
