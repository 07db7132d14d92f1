/**
 * The two bracket-balancing scanners of `lib/workflow-ai.ts`:
 * `extractBalancedJson`, which cuts the first bracketed value out of a text
 * and closes what is left open, and `extractBalancedArrayFrom`, which does the
 * same for an array starting at a given index.
 *
 * Both read the text left to right with one state machine: a stack of open
 * `{`/`[`, an in-string flag and an escape flag. A closer that does not match
 * the top of the stack is ignored. When the text runs out, the scanners
 * append a `"` if a string is open and then one closer per open bracket,
 * innermost first.
 *
 * The closing quote is appended even when the text ends right after a
 * backslash inside a string, where that quote is itself escaped and the
 * string stays open (`{"a\` becomes `{"a\"}`). `BalancedJsonAsWritten` and
 * `BalancedArrayAsWritten` keep that behaviour; `BalancedJson` and
 * `BalancedArray` append `""` in that case, and their output always scans
 * back to a closed state. The methods implement the corrected versions.
 */
module Balance {
  import opened Text

  datatype ScanState = ScanState(stack: seq<char>, inString: bool, escaped: bool)

  /** The state before the first character: nothing open. */
  const Fresh := ScanState([], false, false)

  predicate IsOpener(c: char) {
    c == '{' || c == '['
  }

  /** `ch` closes the bracket `top`. */
  predicate Closes(ch: char, top: char) {
    (ch == '}' && top == '{') || (ch == ']' && top == '[')
  }

  /** What the scanners' state can be: an escape only inside a string, only openers on the stack. */
  predicate Valid(st: ScanState) {
    (st.escaped ==> st.inString) && forall k :: 0 <= k < |st.stack| ==> IsOpener(st.stack[k])
  }

  /** One character of the scan (workflow-ai.ts:26-49 and 76-96). */
  function Step(st: ScanState, ch: char): ScanState {
    if st.inString then
      if st.escaped then st.(escaped := false)
      else if ch == '\\' then st.(escaped := true)
      else if ch == '"' then st.(inString := false)
      else st
    else if ch == '"' then st.(inString := true)
    else if IsOpener(ch) then st.(stack := st.stack + [ch])
    else if st.stack != [] && Closes(ch, st.stack[|st.stack| - 1]) then
      st.(stack := st.stack[..|st.stack| - 1])
    else st
  }

  /** The state after scanning `t` from `st`. */
  function Run(st: ScanState, t: string): ScanState
    decreases |t|
  {
    if t == [] then st else Step(Run(st, t[..|t| - 1]), t[|t| - 1])
  }

  lemma RunSnoc(st: ScanState, t: string, c: char)
    ensures Run(st, t + [c]) == Step(Run(st, t), c)
  {
    assert (t + [c])[..|t|] == t;
  }

  /** Scanning `a + b` is scanning `a`, then `b` from where `a` left off. */
  lemma {:induction false} RunAppend(st: ScanState, a: string, b: string)
    ensures Run(st, a + b) == Run(Run(st, a), b)
    decreases |b|
  {
    if b == [] {
      assert a + b == a;
    } else {
      var b' := b[..|b| - 1];
      assert a + b == (a + b') + [b[|b| - 1]];
      RunSnoc(st, a + b', b[|b| - 1]);
      RunAppend(st, a, b');
      RunSnoc(Run(st, a), b', b[|b| - 1]);
      assert b == b' + [b[|b| - 1]];
    }
  }

  lemma {:induction false} RunValid(st: ScanState, t: string)
    requires Valid(st)
    ensures Valid(Run(st, t))
    decreases |t|
  {
    if t != [] {
      RunValid(st, t[..|t| - 1]);
    }
  }

  /** The closer the scanners append for an open bracket. */
  function CloserOf(open: char): char {
    if open == '{' then '}' else ']'
  }

  /** One closer per open bracket, innermost first. */
  function Closers(stack: seq<char>): (r: string)
    ensures |r| == |stack|
    ensures forall k :: 0 <= k < |r| ==> r[k] == '}' || r[k] == ']'
    decreases |stack|
  {
    if stack == [] then [] else [CloserOf(stack[|stack| - 1])] + Closers(stack[..|stack| - 1])
  }

  /** The suffix the source appends: a bare `"` for an open string, then the closers. */
  function AsWrittenClosing(st: ScanState): string {
    (if st.inString then "\"" else "") + Closers(st.stack)
  }

  /** The quotes of the corrected suffix: after a dangling backslash the first quote is consumed by the escape. */
  function ClosingQuotes(st: ScanState): string {
    if st.inString then (if st.escaped then "\"\"" else "\"") else ""
  }

  /** The corrected suffix: the quotes that close an open string, then the closers. */
  function Closing(st: ScanState): string {
    ClosingQuotes(st) + Closers(st.stack)
  }

  /** Scanning the corrected suffix from any reachable state closes everything. */
  lemma {:induction false} ClosingCloses(st: ScanState)
    requires Valid(st)
    ensures Run(st, Closing(st)) == Fresh
  {
    QuotesClose(st);
    RunAppend(st, ClosingQuotes(st), Closers(st.stack));
    ClosersPop(st.stack);
  }

  /** The closing quotes end any open string and leave the stack alone. */
  lemma QuotesClose(st: ScanState)
    requires Valid(st)
    ensures Run(st, ClosingQuotes(st)) == ScanState(st.stack, false, false)
  {
    if st.inString && st.escaped {
      RunSnoc(st, "\"", '"');
      assert "\"\"" == "\"" + ['"'];
      assert Run(st, "\"") == Step(Run(st, []), '"');
    } else if st.inString {
      assert Run(st, "\"") == Step(Run(st, []), '"');
    }
  }

  lemma {:induction false} ClosersPop(stack: seq<char>)
    requires forall k :: 0 <= k < |stack| ==> IsOpener(stack[k])
    ensures Run(ScanState(stack, false, false), Closers(stack)) == Fresh
    decreases |stack|
  {
    if stack != [] {
      var top, rest := stack[|stack| - 1], stack[..|stack| - 1];
      var c := [CloserOf(top)];
      assert Run(ScanState(stack, false, false), c) == ScanState(rest, false, false) by {
        assert Run(ScanState(stack, false, false), c)
            == Step(Run(ScanState(stack, false, false), []), CloserOf(top));
      }
      RunAppend(ScanState(stack, false, false), c, Closers(rest));
      ClosersPop(rest);
    }
  }

  // ---------------------------------------------------------------------------
  // extractBalancedJson (workflow-ai.ts:18-59)

  /** The scan meets its first bracket at `i`: an opener outside a string. */
  predicate OpensAt(s: string, i: nat)
    requires i < |s|
  {
    !Run(Fresh, s[..i]).inString && IsOpener(s[i])
  }

  /** The character at `i` pops the last open bracket. */
  predicate EmptiesAt(s: string, i: nat)
    requires i < |s|
  {
    Run(Fresh, s[..i]).stack != [] && Run(Fresh, s[..i + 1]).stack == []
  }

  function FirstOpenerFrom(s: string, i: nat): (k: nat)
    requires i <= |s|
    ensures i <= k <= |s|
    ensures k < |s| ==> OpensAt(s, k)
    ensures forall j :: i <= j < k ==> !OpensAt(s, j)
    decreases |s| - i
  {
    if i == |s| || OpensAt(s, i) then i else FirstOpenerFrom(s, i + 1)
  }

  /** Where the extracted text starts: the first opener outside a string, or `|s|`. */
  function FirstOpener(s: string): (k: nat)
    ensures k <= |s|
    ensures k < |s| ==> OpensAt(s, k)
    ensures forall j :: 0 <= j < k ==> !OpensAt(s, j)
  {
    FirstOpenerFrom(s, 0)
  }

  function FirstEmptyFrom(s: string, i: nat): (k: nat)
    requires i <= |s|
    ensures i <= k <= |s|
    ensures k < |s| ==> EmptiesAt(s, k)
    ensures forall j :: i <= j < k ==> !EmptiesAt(s, j)
    decreases |s| - i
  {
    if i == |s| || EmptiesAt(s, i) then i else FirstEmptyFrom(s, i + 1)
  }

  /** One past the last character the scan reads: it stops right after the stack first empties. */
  function ScanEnd(s: string): (e: nat)
    ensures e <= |s|
  {
    var k := FirstEmptyFrom(s, 0);
    if k < |s| then k + 1 else |s|
  }

  /** Nothing is pushed before the first opener. */
  lemma {:induction false} NothingOpenBefore(s: string, i: nat)
    requires i <= FirstOpener(s)
    ensures Run(Fresh, s[..i]) == ScanState([], Run(Fresh, s[..i]).inString, Run(Fresh, s[..i]).escaped)
    decreases i
  {
    if i > 0 {
      NothingOpenBefore(s, i - 1);
      assert s[..i] == s[..i - 1] + [s[i - 1]];
      RunSnoc(Fresh, s[..i - 1], s[i - 1]);
      assert !OpensAt(s, i - 1);
    }
  }

  /** The scan state at the first opener is the fresh state. */
  lemma FreshAtOpener(s: string)
    requires FirstOpener(s) < |s|
    ensures Run(Fresh, s[..FirstOpener(s)]) == Fresh
  {
    NothingOpenBefore(s, FirstOpener(s));
    RunValid(Fresh, s[..FirstOpener(s)]);
  }

  /** The stack can only empty after the first opener. */
  lemma OpenerBeforeScanEnd(s: string)
    requires FirstOpener(s) < |s|
    ensures FirstOpener(s) < ScanEnd(s)
  {
    var k := FirstEmptyFrom(s, 0);
    if k < FirstOpener(s) {
      NothingOpenBefore(s, k);
    }
  }

  /** With no opener the stack stays empty and the scan reads the whole text. */
  lemma NoOpenerScan(s: string)
    requires FirstOpener(s) == |s|
    ensures ScanEnd(s) == |s|
    ensures Run(Fresh, s).stack == []
  {
    var k := FirstEmptyFrom(s, 0);
    if k < |s| {
      NothingOpenBefore(s, k);
    }
    NothingOpenBefore(s, |s|);
    assert s[..|s|] == s;
  }

  /** The text `extractBalancedJson` keeps before appending closers. */
  function Extracted(s: string): (out: string)
  {
    var start := FirstOpener(s);
    if start < |s| then
      OpenerBeforeScanEnd(s);
      s[start..ScanEnd(s)]
    else Trim(s)
  }

  /** The source's result. */
  function BalancedJsonAsWritten(s: string): string {
    Extracted(s) + AsWrittenClosing(Run(Fresh, s[..ScanEnd(s)]))
  }

  /** The corrected result: the extracted text closed according to its own scan. */
  function BalancedJson(s: string): string {
    var out := Extracted(s);
    out + Closing(Run(Fresh, out))
  }

  /** The scan of the extracted text ends where the scan of the input stopped. */
  lemma ExtractedState(s: string)
    requires FirstOpener(s) < |s|
    ensures Run(Fresh, Extracted(s)) == Run(Fresh, s[..ScanEnd(s)])
  {
    var start, end := FirstOpener(s), ScanEnd(s);
    OpenerBeforeScanEnd(s);
    FreshAtOpener(s);
    assert s[..end] == s[..start] + s[start..end];
    RunAppend(Fresh, s[..start], s[start..end]);
  }

  /**
   * The corrected output, scanned again, leaves no string and no bracket open:
   * it is balanced.
   */
  lemma BalancedJsonCloses(s: string)
    ensures Run(Fresh, BalancedJson(s)) == Fresh
  {
    var out := Extracted(s);
    RunValid(Fresh, out);
    RunAppend(Fresh, out, Closing(Run(Fresh, out)));
    ClosingCloses(Run(Fresh, out));
  }

  /** When the stack empties, the scan stops there and nothing is appended. */
  lemma StopsWhereStackEmpties(s: string, k: nat)
    requires k < |s| && EmptiesAt(s, k)
    requires forall j :: 0 <= j < k ==> !EmptiesAt(s, j)
    ensures FirstOpener(s) <= k
    ensures BalancedJson(s) == s[FirstOpener(s)..k + 1]
    ensures BalancedJsonAsWritten(s) == s[FirstOpener(s)..k + 1]
  {
    assert FirstEmptyFrom(s, 0) == k;
    if FirstOpener(s) > k {
      NothingOpenBefore(s, k);
    }
    var st := Run(Fresh, s[..k + 1]);
    assert s[..k + 1] == s[..k] + [s[k]];
    RunSnoc(Fresh, s[..k], s[k]);
    RunValid(Fresh, s[..k]);
    assert !st.inString && !st.escaped;
    ExtractedState(s);
    assert Closing(st) == [] && AsWrittenClosing(st) == [];
  }

  /** With no bracket outside a string, the result is the trimmed input, closed if a string is open. */
  lemma NoOpenerTrims(s: string)
    requires FirstOpener(s) == |s|
    ensures BalancedJson(s) == Trim(s) + Closing(Run(Fresh, Trim(s)))
  {
    assert Extracted(s) == Trim(s);
  }

  /** As written, the same case appends a bare quote for an open string. */
  lemma NoOpenerTrimsAsWritten(s: string)
    requires FirstOpener(s) == |s|
    ensures Run(Fresh, s).stack == []
    ensures BalancedJsonAsWritten(s) == Trim(s) + AsWrittenClosing(Run(Fresh, s))
  {
    NoOpenerScan(s);
    var e := ScanEnd(s);
    assert s[..e] == s;
    assert Extracted(s) == Trim(s);
    assert BalancedJsonAsWritten(s) == Extracted(s) + AsWrittenClosing(Run(Fresh, s[..e]));
  }

  /** Whitespace moves no bracket and opens or closes no string. */
  lemma {:induction false} RunSpaces(st: ScanState, t: string)
    requires AllSpace(t)
    ensures Run(st, t).stack == st.stack && Run(st, t).inString == st.inString
    ensures !st.inString ==> Run(st, t) == st
    decreases |t|
  {
    if t != [] {
      RunSpaces(st, t[..|t| - 1]);
      assert IsSpace(t[|t| - 1]);
    }
  }

  /** Trimming changes only the escape flag of the scan, and only by a removed trailing space. */
  lemma TrimState(s: string)
    ensures Run(Fresh, Trim(s)).stack == Run(Fresh, s).stack
    ensures Run(Fresh, Trim(s)).inString == Run(Fresh, s).inString
  {
    var r := Trim(s);
    var lead, tail := TrimParts(s);
    RunSpaces(Fresh, lead);
    RunAppend(Fresh, lead, r);
    var mid := Run(Fresh, lead + r);
    RunAppend(Fresh, lead + r, tail);
    RunSpaces(mid, tail);
  }

  /** A text is its leading spaces, its trim and its trailing spaces. */
  lemma TrimParts(s: string) returns (lead: string, tail: string)
    ensures s == (lead + Trim(s)) + tail && AllSpace(lead) && AllSpace(tail)
  {
    var l, r := LeadingSpaces(s), Trim(s);
    lead, tail := s[..l], s[l + |r|..];
    Pieces(s, l, l + |r|);
  }

  /** A text is the three pieces it is cut into. */
  lemma Pieces(s: string, i: nat, j: nat)
    requires i <= j <= |s|
    ensures s == (s[..i] + s[i..j]) + s[j..]
  {
  }

  /**
   * The correction changes the result only when the text ends inside a string
   * right after a backslash.
   */
  lemma CorrectionOnlyAfterBackslash(s: string)
    requires !Run(Fresh, Extracted(s)).escaped
    ensures BalancedJson(s) == BalancedJsonAsWritten(s)
  {
    if FirstOpener(s) < |s| {
      ExtractedState(s);
    } else {
      NoOpenerScan(s);
      TrimState(s);
      assert s[..|s|] == s;
    }
  }

  /** Whenever the text ends inside a string after a backslash, the source's output leaves that string open. */
  lemma AsWrittenLeavesStringOpen(s: string)
    requires FirstOpener(s) < |s|
    requires Run(Fresh, s[..ScanEnd(s)]).inString && Run(Fresh, s[..ScanEnd(s)]).escaped
    ensures Run(Fresh, BalancedJsonAsWritten(s)).inString
  {
    var st := Run(Fresh, s[..ScanEnd(s)]);
    ExtractedState(s);
    var out := Extracted(s);
    RunAppend(Fresh, out, AsWrittenClosing(st));
    RunAppend(st, "\"", Closers(st.stack));
    assert Run(st, "\"") == Step(Run(st, []), '"');
    StringAbsorbs(ScanState(st.stack, true, false), Closers(st.stack));
  }

  /** Inside a string, closers are plain characters. */
  lemma {:induction false} StringAbsorbs(st: ScanState, t: string)
    requires st.inString && !st.escaped
    requires forall k :: 0 <= k < |t| ==> t[k] != '"' && t[k] != '\\'
    ensures Run(st, t) == st
    decreases |t|
  {
    if t != [] {
      StringAbsorbs(st, t[..|t| - 1]);
    }
  }

  /** The scan of `{"a\`: one brace open, inside a string, right after a backslash. */
  lemma EscapedQuoteScan(s: string)
    requires s == "{\"a\\"
    ensures Run(Fresh, s[..1]) == ScanState("{", false, false)
    ensures Run(Fresh, s[..2]) == ScanState("{", true, false)
    ensures Run(Fresh, s[..3]) == ScanState("{", true, false)
    ensures Run(Fresh, s) == ScanState("{", true, true)
  {
    assert s[..1] == [] + ['{'];
    RunSnoc(Fresh, s[..1], '"');
    assert s[..2] == s[..1] + ['"'];
    RunSnoc(Fresh, s[..2], 'a');
    assert s[..3] == s[..2] + ['a'];
    RunSnoc(Fresh, s[..3], '\\');
    assert s == s[..3] + ['\\'];
  }

  /** `{"a\` is extracted whole: the brace opens at 0 and the stack never empties. */
  lemma EscapedQuoteExtracted(s: string)
    requires s == "{\"a\\"
    ensures FirstOpener(s) == 0
    ensures ScanEnd(s) == |s|
    ensures Extracted(s) == s
  {
    EscapedQuoteScan(s);
    assert OpensAt(s, 0) by { assert s[..0] == []; }
    assert !EmptiesAt(s, 0) && !EmptiesAt(s, 1) && !EmptiesAt(s, 2);
    assert !EmptiesAt(s, 3) by { assert s[..4] == s; }
    assert FirstEmptyFrom(s, 0) == 4;
  }

  /** `{"a\` ends inside a string right after a backslash, so the appended quote does not close it. */
  lemma EscapedQuoteExample(s: string)
    requires s == "{\"a\\"
    ensures Run(Fresh, s).inString && Run(Fresh, s).escaped
    ensures BalancedJsonAsWritten(s) == "{\"a\\\"}"
    ensures Run(Fresh, BalancedJsonAsWritten(s)).inString
    ensures BalancedJson(s) == "{\"a\\\"\"}"
  {
    EscapedQuoteScan(s);
    EscapedQuoteExtracted(s);
    assert s[..ScanEnd(s)] == s;
    AsWrittenLeavesStringOpen(s);
  }

  // ---------------------------------------------------------------------------
  // Balancing twice

  /** After the first opener and until the stack first empties, some bracket is open. */
  lemma {:induction false} StackOpenFrom(s: string, i: nat)
    requires FirstOpener(s) < i <= |s| && i <= FirstEmptyFrom(s, 0)
    ensures Run(Fresh, s[..i]).stack != []
    decreases i
  {
    assert s[..i] == s[..i - 1] + [s[i - 1]];
    RunSnoc(Fresh, s[..i - 1], s[i - 1]);
    if i == FirstOpener(s) + 1 {
      FreshAtOpener(s);
    } else {
      StackOpenFrom(s, i - 1);
      assert !EmptiesAt(s, i - 1);
    }
  }

  /** Scanning quotes moves no bracket. */
  lemma {:induction false} QuotesKeepStack(st: ScanState, t: string)
    requires forall k :: 0 <= k < |t| ==> t[k] == '"'
    ensures Run(st, t).stack == st.stack
    decreases |t|
  {
    if t != [] {
      QuotesKeepStack(st, t[..|t| - 1]);
    }
  }

  /** The first `m` closers pop the top `m` brackets. */
  lemma {:induction false} ClosersPrefix(stack: seq<char>, m: nat)
    requires m <= |stack| && forall k :: 0 <= k < |stack| ==> IsOpener(stack[k])
    ensures Run(ScanState(stack, false, false), Closers(stack)[..m]) == ScanState(stack[..|stack| - m], false, false)
    decreases m
  {
    if m > 0 {
      var st := ScanState(stack, false, false);
      var rest := stack[..|stack| - 1];
      var c := CloserOf(stack[|stack| - 1]);
      var tail := Closers(rest)[..m - 1];
      ClosersHead(stack, m);
      RunAppend(st, [c], tail);
      RunOne(st, c);
      PopStep(stack, c);
      ClosersPrefix(rest, m - 1);
      assert rest[..|rest| - (m - 1)] == stack[..|stack| - m];
    }
  }

  /** The closers start with the closer of the top bracket. */
  lemma ClosersHead(stack: seq<char>, m: nat)
    requires 0 < m <= |stack|
    ensures Closers(stack)[..m] == [CloserOf(stack[|stack| - 1])] + Closers(stack[..|stack| - 1])[..m - 1]
  {
  }

  /** Scanning one character is one step. */
  lemma RunOne(st: ScanState, c: char)
    ensures Run(st, [c]) == Step(st, c)
  {
    RunSnoc(st, [], c);
    assert [] + [c] == [c];
  }

  /** Outside a string, the closer of the top bracket pops it. */
  lemma PopStep(stack: seq<char>, c: char)
    requires stack != [] && IsOpener(stack[|stack| - 1]) && c == CloserOf(stack[|stack| - 1])
    ensures Step(ScanState(stack, false, false), c) == ScanState(stack[..|stack| - 1], false, false)
  {
  }

  /** Before its last character, the corrected suffix of a state with an open bracket leaves one open. */
  lemma ClosingOpen(st: ScanState, m: nat)
    requires Valid(st) && st.stack != [] && m < |Closing(st)|
    ensures Run(st, Closing(st)[..m]).stack != []
  {
    var q := ClosingQuotes(st);
    if m <= |q| {
      assert Closing(st)[..m] == q[..m];
      QuotesKeepStack(st, q[..m]);
    } else {
      assert Closing(st)[..m] == q + Closers(st.stack)[..m - |q|];
      RunAppend(st, q, Closers(st.stack)[..m - |q|]);
      QuotesClose(st);
      ClosersPrefix(st.stack, m - |q|);
    }
  }

  /** A text with no space at either end is its own trim. */
  lemma TrimmedStays(t: string)
    requires t == [] || (!IsSpace(t[0]) && !IsSpace(t[|t| - 1]))
    ensures Trim(t) == t
  {
    if t != [] {
      assert LeadingSpaces(t) == 0;
      assert TrailingSpaces(t[0..]) == 0 by { assert t[0..] == t; }
    }
  }

  /** A text that opens at its first character and keeps a bracket open until its last is scanned whole. */
  lemma OpenUntilLast(o: string)
    requires o != [] && IsOpener(o[0])
    requires forall m :: 0 < m < |o| ==> Run(Fresh, o[..m]).stack != []
    ensures FirstOpener(o) == 0 && ScanEnd(o) == |o|
  {
    assert OpensAt(o, 0) by { assert o[..0] == []; }
    FirstOpenerIs(o, 0);
    forall j | 0 <= j < |o| - 1 ensures !EmptiesAt(o, j) {
      assert Run(Fresh, o[..j + 1]).stack != [];
    }
    assert FirstEmptyFrom(o, 0) >= |o| - 1;
  }

  /** When the stack empties, no string is open and nothing is left to close. */
  lemma EmptiedClosed(s: string, k: nat)
    requires k < |s| && EmptiesAt(s, k)
    ensures Closing(Run(Fresh, s[..k + 1])) == []
  {
    assert s[..k + 1] == s[..k] + [s[k]];
    RunSnoc(Fresh, s[..k], s[k]);
    RunValid(Fresh, s[..k]);
  }

  /** What the extraction keeps when there is an opener, and the state its scan ends in. */
  lemma ExtractedShape(s: string)
    requires FirstOpener(s) < |s|
    ensures var f, k := FirstOpener(s), FirstEmptyFrom(s, 0);
      && f < ScanEnd(s) && Extracted(s) == s[f..ScanEnd(s)]
      && Run(Fresh, Extracted(s)) == Run(Fresh, s[..ScanEnd(s)])
      && Valid(Run(Fresh, Extracted(s)))
      && (k < |s| ==> Closing(Run(Fresh, Extracted(s))) == [])
      && (k == |s| ==> Run(Fresh, Extracted(s)).stack != [])
  {
    var k := FirstEmptyFrom(s, 0);
    ExtractedFrom(s, FirstOpener(s), Run(Fresh, s[..ScanEnd(s)]));
    RunValid(Fresh, Extracted(s));
    if k < |s| {
      EmptiedClosed(s, k);
    } else {
      StackOpenFrom(s, |s|);
      assert s[..|s|] == s;
    }
  }

  /** A prefix of the extracted text is the text from the first opener on. */
  lemma ExtractedPrefix(s: string, m: nat)
    requires FirstOpener(s) < |s| && FirstOpener(s) + m <= ScanEnd(s)
    ensures Extracted(s)[..m] == s[FirstOpener(s)..FirstOpener(s) + m]
  {
    var f, e := FirstOpener(s), ScanEnd(s);
    ExtractedFrom(s, f, Run(Fresh, s[..e]));
    assert s[f..e][..m] == s[f..f + m];
  }

  /** From the first opener until the stack empties, a bracket stays open. */
  lemma OpenFromOpener(s: string, i: nat)
    requires FirstOpener(s) < i <= |s| && i <= FirstEmptyFrom(s, 0)
    ensures Run(Fresh, s[FirstOpener(s)..i]).stack != []
  {
    PrefixFromOpener(s, i);
    StackOpenFrom(s, i);
  }

  /** From the first opener, scanning a piece of the text is scanning the text up to its end. */
  lemma PrefixFromOpener(s: string, i: nat)
    requires FirstOpener(s) < |s| && FirstOpener(s) <= i <= |s|
    ensures Run(Fresh, s[FirstOpener(s)..i]) == Run(Fresh, s[..i])
  {
    var f := FirstOpener(s);
    assert s[..i] == s[..f] + s[f..i];
    RunAppend(Fresh, s[..f], s[f..i]);
    FreshAtOpener(s);
  }

  /** Every proper prefix of the corrected output with an opener leaves a bracket open. */
  lemma BalancedPrefixOpen(s: string, m: nat)
    requires FirstOpener(s) < |s| && 0 < m < |BalancedJson(s)|
    ensures Run(Fresh, BalancedJson(s)[..m]).stack != []
  {
    if m <= |Extracted(s)| {
      PrefixOfExtractedOpen(s, m);
    } else {
      PrefixIntoClosingOpen(s, m);
    }
  }

  lemma PrefixOfExtractedOpen(s: string, m: nat)
    requires FirstOpener(s) < |s| && 0 < m <= |Extracted(s)| && m < |BalancedJson(s)|
    ensures Run(Fresh, BalancedJson(s)[..m]).stack != []
  {
    var f := FirstOpener(s);
    ExtractedReach(s, m);
    assert BalancedJson(s)[..m] == Extracted(s)[..m];
    ExtractedPrefix(s, m);
    OpenFromOpener(s, f + m);
  }

  /** A proper prefix of the corrected output inside the extracted text ends before the stack empties. */
  lemma ExtractedReach(s: string, m: nat)
    requires FirstOpener(s) < |s| && 0 < m <= |Extracted(s)| && m < |BalancedJson(s)|
    ensures FirstOpener(s) + m <= FirstEmptyFrom(s, 0)
  {
    var f, k := FirstOpener(s), FirstEmptyFrom(s, 0);
    ExtractedLength(s);
    if k < |s| {
      EmptiedAll(s);
    }
  }

  /** The extracted text runs from the first opener to where the scan stopped. */
  lemma ExtractedLength(s: string)
    requires FirstOpener(s) < |s|
    ensures |Extracted(s)| == ScanEnd(s) - FirstOpener(s)
  {
    OpenerBeforeScanEnd(s);
  }

  /** When the stack empties, the corrected output is the extracted text alone. */
  lemma EmptiedAll(s: string)
    requires FirstOpener(s) < |s| && FirstEmptyFrom(s, 0) < |s|
    ensures BalancedJson(s) == Extracted(s)
  {
    var k := FirstEmptyFrom(s, 0);
    ExtractedState(s);
    EmptiedClosed(s, k);
    assert BalancedJson(s) == Extracted(s) + [];
  }

  lemma PrefixIntoClosingOpen(s: string, m: nat)
    requires FirstOpener(s) < |s| && |Extracted(s)| < m < |BalancedJson(s)|
    ensures Run(Fresh, BalancedJson(s)[..m]).stack != []
  {
    var out := Extracted(s);
    var st := Run(Fresh, out);
    var o := BalancedJson(s);
    assert o[..m] == out + Closing(st)[..m - |out|];
    ExtractedShape(s);
    RunAppend(Fresh, out, Closing(st)[..m - |out|]);
    ClosingOpen(st, m - |out|);
  }

  /** With an opener, the corrected output opens at its first character and stays open until its last. */
  lemma OpenerBalancedScan(s: string)
    requires FirstOpener(s) < |s|
    ensures FirstOpener(BalancedJson(s)) == 0 && ScanEnd(BalancedJson(s)) == |BalancedJson(s)|
  {
    var o := BalancedJson(s);
    ExtractedShape(s);
    assert o[0] == s[FirstOpener(s)];
    forall m | 0 < m < |o| ensures Run(Fresh, o[..m]).stack != [] {
      BalancedPrefixOpen(s, m);
    }
    OpenUntilLast(o);
  }

  /** The trimmed text of one without an opener has none either. */
  lemma TrimNoOpener(s: string, j: nat)
    requires FirstOpener(s) == |s| && j < |Trim(s)|
    ensures Run(Fresh, Trim(s)[..j]).inString || !IsOpener(Trim(s)[j])
  {
    var r, l := Trim(s), LeadingSpaces(s);
    RunSpaces(Fresh, s[..l]);
    assert s[..l + j] == s[..l] + r[..j];
    RunAppend(Fresh, s[..l], r[..j]);
    assert !OpensAt(s, l + j);
  }

  /** Without an opener, the corrected output has none either and is its own trim. */
  lemma NoOpenerBalanced(s: string)
    requires FirstOpener(s) == |s|
    ensures FirstOpener(BalancedJson(s)) == |BalancedJson(s)| && Trim(BalancedJson(s)) == BalancedJson(s)
  {
    var r := Trim(s);
    var st := Run(Fresh, r);
    var o := BalancedJson(s);
    NoOpenerScan(s);
    TrimState(s);
    assert s[..|s|] == s;
    assert Extracted(s) == r;
    assert o == r + ClosingQuotes(st);
    forall j | 0 <= j < |o| ensures !OpensAt(o, j) {
      if j < |r| {
        assert o[..j] == r[..j] && o[j] == r[j];
        TrimNoOpener(s, j);
      }
    }
    FirstOpenerNone(o);
    TrimmedStays(o);
  }

  /** Balancing the corrected output again changes nothing. */
  lemma BalancedJsonIdempotent(s: string)
    ensures BalancedJson(BalancedJson(s)) == BalancedJson(s)
  {
    var o := BalancedJson(s);
    BalancedJsonCloses(s);
    if FirstOpener(s) < |s| {
      OpenerBalancedScan(s);
      assert Extracted(o) == o[0..|o|] == o;
    } else {
      NoOpenerBalanced(s);
    }
    assert Closing(Fresh) == [];
  }

  /** The scan of `{"a\"}`: the escaped quote keeps the string open to the end. */
  lemma EscapedOutputScan(t: string)
    requires t == "{\"a\\\"}"
    ensures forall i :: 1 <= i <= |t| ==> Run(Fresh, t[..i]).stack == "{"
    ensures Run(Fresh, t) == ScanState("{", true, false)
  {
    var s1 := ScanState("{", false, false);
    var s2 := ScanState("{", true, false);
    var s4 := ScanState("{", true, true);
    assert t[..1] == [] + ['{'];
    RunSnoc(Fresh, [], '{');
    assert Run(Fresh, t[..1]) == s1;
    assert t[..2] == t[..1] + ['"'];
    RunSnoc(Fresh, t[..1], '"');
    assert Run(Fresh, t[..2]) == s2;
    assert t[..3] == t[..2] + ['a'];
    RunSnoc(Fresh, t[..2], 'a');
    assert Run(Fresh, t[..3]) == s2;
    assert t[..4] == t[..3] + ['\\'];
    RunSnoc(Fresh, t[..3], '\\');
    assert Run(Fresh, t[..4]) == s4;
    assert t[..5] == t[..4] + ['"'];
    RunSnoc(Fresh, t[..4], '"');
    assert Run(Fresh, t[..5]) == s2;
    assert t == t[..5] + ['}'];
    RunSnoc(Fresh, t[..5], '}');
    assert Run(Fresh, t) == s2;
    assert t[..6] == t;
    forall i | 1 <= i <= |t| ensures Run(Fresh, t[..i]).stack == "{" {
      if i == 1 {
      } else if i == 2 {
      } else if i == 3 {
      } else if i == 4 {
      } else if i == 5 {
      }
    }
  }

  /**
   * As written, balancing is not idempotent: `{"a\` gives `{"a\"}`, whose
   * string is still open, and balancing that gives `{"a\"}"}`.
   */
  lemma AsWrittenNotIdempotent(s: string)
    requires s == "{\"a\\"
    ensures BalancedJsonAsWritten(s) == "{\"a\\\"}"
    ensures BalancedJsonAsWritten(BalancedJsonAsWritten(s)) == "{\"a\\\"}\"}"
  {
    EscapedQuoteExample(s);
    var t := BalancedJsonAsWritten(s);
    EscapedOutputScan(t);
    assert OpensAt(t, 0) by { assert t[..0] == []; }
    FirstOpenerIs(t, 0);
    forall j | 0 <= j < |t| ensures !EmptiesAt(t, j) {
      assert Run(Fresh, t[..j + 1]).stack == "{";
    }
    assert FirstEmptyFrom(t, 0) == |t|;
    assert t[0..|t|] == t && t[..|t|] == t;
  }

  // ---------------------------------------------------------------------------
  // extractBalancedArrayFrom (workflow-ai.ts:67-108)

  /** The text the array scanner reads: from `from` to the end. */
  function Tail(s: string, from: nat): string {
    if from < |s| then s[from..] else []
  }

  /** The character at `i` of `t` is a `]` that pops the last open bracket. */
  predicate ArrayStopsAt(t: string, i: nat)
    requires i < |t|
  {
    EmptiesAt(t, i) && t[i] == ']'
  }

  function FirstArrayStopFrom(t: string, i: nat): (k: nat)
    requires i <= |t|
    ensures i <= k <= |t|
    ensures k < |t| ==> ArrayStopsAt(t, k)
    ensures forall j :: i <= j < k ==> !ArrayStopsAt(t, j)
    decreases |t| - i
  {
    if i == |t| || ArrayStopsAt(t, i) then i else FirstArrayStopFrom(t, i + 1)
  }

  /** The characters the array scanner copies: through the first `]` that empties the stack, or all. */
  function ArrayScanned(s: string, from: nat): (out: string)
    ensures |out| <= |Tail(s, from)|
  {
    var t := Tail(s, from);
    var k := FirstArrayStopFrom(t, 0);
    if k < |t| then t[..k + 1] else t
  }

  /** The source's result: closers are appended only while a bracket is open. */
  function BalancedArrayAsWritten(s: string, from: nat): string {
    var out := ArrayScanned(s, from);
    var st := Run(Fresh, out);
    out + (if st.stack != [] then AsWrittenClosing(st) else "")
  }

  /** The corrected result. */
  function BalancedArray(s: string, from: nat): string {
    var out := ArrayScanned(s, from);
    var st := Run(Fresh, out);
    out + (if st.stack != [] then Closing(st) else "")
  }

  /** From an opening `[`, the stack holds that `[` at its bottom until a `]` pops it. */
  lemma {:induction false} ArrayStackKeepsBottom(t: string, i: nat)
    requires 0 < i <= |t| && t[0] == '['
    requires forall j :: 0 <= j < i ==> !ArrayStopsAt(t, j)
    ensures Run(Fresh, t[..i]).stack != [] && Run(Fresh, t[..i]).stack[0] == '['
    decreases i
  {
    if i == 1 {
      assert t[..1] == [] + ['['];
      RunSnoc(Fresh, [], '[');
    } else {
      ArrayStackKeepsBottom(t, i - 1);
      assert t[..i] == t[..i - 1] + [t[i - 1]];
      RunSnoc(Fresh, t[..i - 1], t[i - 1]);
      assert !ArrayStopsAt(t, i - 1);
    }
  }

  /**
   * Started on a `[`, the corrected array output scans back to a closed state:
   * either the scan stopped on the `]` that emptied the stack, or the stack is
   * still open at the end and the closers are appended.
   */
  lemma BalancedArrayCloses(s: string, from: nat)
    requires from < |s| && s[from] == '['
    ensures Run(Fresh, BalancedArray(s, from)) == Fresh
  {
    var t := Tail(s, from);
    var k := FirstArrayStopFrom(t, 0);
    var out := ArrayScanned(s, from);
    var st := Run(Fresh, out);
    RunValid(Fresh, out);
    if k < |t| {
      assert out == t[..k + 1];
      assert t[..k + 1] == t[..k] + [t[k]];
      RunSnoc(Fresh, t[..k], t[k]);
      RunValid(Fresh, t[..k]);
      var before := Run(Fresh, t[..k]);
      assert before.stack != [] && st.stack == [];
      assert !before.inString;
      assert st == Fresh;
      assert BalancedArray(s, from) == out + "";
      assert out + "" == out;
    } else {
      ArrayStackKeepsBottom(t, |t|);
      assert t[..|t|] == t;
      RunAppend(Fresh, out, Closing(st));
      ClosingCloses(st);
    }
  }

  /** The correction changes the array result only after a dangling backslash. */
  lemma ArrayCorrectionOnlyAfterBackslash(s: string, from: nat)
    requires !Run(Fresh, ArrayScanned(s, from)).escaped
    ensures BalancedArray(s, from) == BalancedArrayAsWritten(s, from)
  {
  }

  // ---------------------------------------------------------------------------
  // The scanners as the source runs them

  /** The closers for `stack`, appended one pop at a time (workflow-ai.ts:54-57, 102-105). */
  method AppendClosers(out: string, stack: seq<char>) returns (r: string)
    ensures r == out + Closers(stack)
  {
    r := out;
    var rest := stack;
    while rest != []
      invariant r + Closers(rest) == out + Closers(stack)
      decreases |rest|
    {
      var top := rest[|rest| - 1];
      rest := rest[..|rest| - 1];
      r := r + [CloserOf(top)];
    }
  }

  lemma FirstOpenerIs(s: string, i: nat)
    requires i < |s| && OpensAt(s, i)
    requires forall j :: 0 <= j < i ==> !OpensAt(s, j)
    ensures FirstOpener(s) == i
  {
  }

  lemma FirstEmptyIs(s: string, i: nat)
    requires i < |s| && EmptiesAt(s, i)
    requires forall j :: 0 <= j < i ==> !EmptiesAt(s, j)
    ensures ScanEnd(s) == i + 1
  {
  }

  /** Scanning one more character of `s`: the state it leads to, and whether it opens or empties the stack. */
  lemma JsonStep(s: string, i: nat, prev: ScanState)
    requires i < |s| && prev == Run(Fresh, s[..i])
    ensures s[..i + 1] == s[..i] + [s[i]] && Run(Fresh, s[..i + 1]) == Step(prev, s[i])
    ensures OpensAt(s, i) <==> !prev.inString && IsOpener(s[i])
    ensures EmptiesAt(s, i) <==> prev.stack != [] && Step(prev, s[i]).stack == []
  {
    assert s[..i + 1] == s[..i] + [s[i]];
    RunSnoc(Fresh, s[..i], s[i]);
  }

  /**
   * The `for` loop of `extractBalancedJson`: where the first opener is
   * (`-1` for none), where the stack first empties (`-1` for never), and the
   * state the scan stops in.
   */
  method ScanJson(s: string) returns (start: int, end: int, st: ScanState)
    ensures start == -1 <==> FirstOpener(s) == |s|
    ensures start != -1 ==> start == FirstOpener(s)
    ensures end == -1 ==> ScanEnd(s) == |s|
    ensures end != -1 ==> 0 <= start <= end < |s| && ScanEnd(s) == end + 1
    ensures st == Run(Fresh, s[..ScanEnd(s)])
  {
    start, end := -1, -1;
    var stack: seq<char> := [];
    var inString, escaped := false, false;
    var i := 0;
    while i < |s|
      invariant 0 <= i <= |s|
      invariant ScanState(stack, inString, escaped) == Run(Fresh, s[..i])
      invariant start == -1 ==> stack == [] && forall j :: 0 <= j < i ==> !OpensAt(s, j)
      invariant start != -1 ==> 0 <= start < i && start == FirstOpener(s)
      invariant forall j :: 0 <= j < i ==> !EmptiesAt(s, j)
      invariant end == -1
    {
      var ch := s[i];
      ghost var prev := ScanState(stack, inString, escaped);
      ghost var next := Step(prev, ch);
      JsonStep(s, i, prev);
      if inString {
        if escaped {
          escaped := false;
        } else if ch == '\\' {
          escaped := true;
        } else if ch == '"' {
          inString := false;
        }
      } else if ch == '"' {
        inString := true;
      } else if ch == '{' || ch == '[' {
        if start == -1 {
          assert OpensAt(s, i);
          FirstOpenerIs(s, i);
          start := i;
        }
        stack := stack + [ch];
      } else if (ch == '}' || ch == ']') && stack != [] {
        var top := stack[|stack| - 1];
        if (ch == '}' && top == '{') || (ch == ']' && top == '[') {
          stack := stack[..|stack| - 1];
          if stack == [] {
            assert EmptiesAt(s, i);
            FirstEmptyIs(s, i);
            end := i;
            st := ScanState(stack, inString, escaped);
            return;
          }
        }
      }
      assert ScanState(stack, inString, escaped) == next && !EmptiesAt(s, i);
      i := i + 1;
    }
    assert s[..i] == s;
    assert FirstEmptyFrom(s, 0) == |s|;
    if start == -1 {
      FirstOpenerNone(s);
    }
    st := ScanState(stack, inString, escaped);
  }

  /** When the text has an opener outside a string, the source's result starts with that opener. */
  lemma AsWrittenStartsAtOpener(s: string)
    requires FirstOpener(s) < |s|
    ensures var r := BalancedJsonAsWritten(s); r != [] && r[0] == s[FirstOpener(s)] && IsOpener(r[0])
  {
    ExtractedShape(s);
  }

  /** With no opener outside a string the extracted text starts nowhere. */
  lemma FirstOpenerNone(s: string)
    requires forall j :: 0 <= j < |s| ==> !OpensAt(s, j)
    ensures FirstOpener(s) == |s|
  {
  }

  /** The text kept from the first opener to where the scan stopped, and the state it scans to. */
  lemma ExtractedFrom(s: string, start: nat, st: ScanState)
    requires start == FirstOpener(s) < |s|
    requires st == Run(Fresh, s[..ScanEnd(s)])
    ensures start < ScanEnd(s)
    ensures Extracted(s) == s[start..ScanEnd(s)]
    ensures Run(Fresh, Extracted(s)) == st
  {
    OpenerBeforeScanEnd(s);
    ExtractedState(s);
  }

  /** The corrected suffix for `st`, appended: the quotes, then one closer per open bracket. */
  method AppendClosing(out: string, st: ScanState) returns (r: string)
    ensures r == out + Closing(st)
  {
    var quotes := if st.inString then (if st.escaped then "\"\"" else "\"") else "";
    r := AppendClosers(out + quotes, st.stack);
  }

  /** `extractBalancedJson`, with the corrected closing quote. */
  method ExtractBalancedJson(s: string) returns (out: string)
    ensures out == BalancedJson(s)
  {
    var start, end, st := ScanJson(s);
    if start != -1 {
      ExtractedFrom(s, start, st);
      out := s[start..if end != -1 then end + 1 else |s|];
    } else {
      out := Trim(s);
      st := Run(Fresh, out);
    }
    out := AppendClosing(out, st);
  }

  /**
   * The `for` loop of `extractBalancedArrayFrom`: the characters it copies
   * and the state it stops in.
   */
  method ScanArray(s: string, startIndex: nat) returns (out: string, st: ScanState)
    ensures out == ArrayScanned(s, startIndex)
    ensures st == Run(Fresh, out)
  {
    ghost var t := Tail(s, startIndex);
    ghost var k := 0;
    var i := startIndex;
    var stack: seq<char> := [];
    var inString, escaped := false, false;
    out := "";
    while i < |s|
      invariant k <= |t| && i == startIndex + k && (i < |s| <==> k < |t|)
      invariant out == t[..k]
      invariant ScanState(stack, inString, escaped) == Run(Fresh, out)
      invariant FirstArrayStopFrom(t, 0) == FirstArrayStopFrom(t, k)
      decreases |s| - i
    {
      var ch := s[i];
      ghost var prev := ScanState(stack, inString, escaped);
      ghost var next := Step(prev, ch);
      ArrayStopStep(t, k, prev);
      out := out + [ch];
      if inString {
        if escaped {
          escaped := false;
        } else if ch == '\\' {
          escaped := true;
        } else if ch == '"' {
          inString := false;
        }
      } else if ch == '"' {
        inString := true;
      } else if ch == '[' || ch == '{' {
        stack := stack + [ch];
      } else if ch == ']' || ch == '}' {
        if stack != [] && ((ch == ']' && stack[|stack| - 1] == '[') || (ch == '}' && stack[|stack| - 1] == '{')) {
          stack := stack[..|stack| - 1];
          if stack == [] && ch == ']' {
            st := ScanState(stack, inString, escaped);
            return;
          }
        }
      }
      assert ScanState(stack, inString, escaped) == next;
      i, k := i + 1, k + 1;
    }
    assert t[..k] == t;
    st := ScanState(stack, inString, escaped);
  }

  /** Scanning one more character of `t`: the state it leads to, and whether the array scanner stops there. */
  lemma ArrayStopStep(t: string, k: nat, prev: ScanState)
    requires k < |t| && prev == Run(Fresh, t[..k])
    ensures t[..k + 1] == t[..k] + [t[k]] && Run(Fresh, t[..k + 1]) == Step(prev, t[k])
    ensures ArrayStopsAt(t, k) <==> prev.stack != [] && Step(prev, t[k]).stack == [] && t[k] == ']'
    ensures !ArrayStopsAt(t, k) ==> FirstArrayStopFrom(t, k) == FirstArrayStopFrom(t, k + 1)
  {
    assert t[..k + 1] == t[..k] + [t[k]];
    RunSnoc(Fresh, t[..k], t[k]);
  }

  /** `extractBalancedArrayFrom`, with the corrected closing quote. */
  method ExtractBalancedArrayFrom(s: string, startIndex: nat) returns (out: string)
    ensures out == BalancedArray(s, startIndex)
  {
    var st;
    out, st := ScanArray(s, startIndex);
    if st.stack != [] {
      out := AppendClosing(out, st);
    }
  }
}
