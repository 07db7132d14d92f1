/**
 * `reconstructWorkflowJson` (workflow-ai.ts:111-130): the last structured
 * attempt before the URL fallback. It finds the `"nodes": [` array, and the
 * `"edges": [` array when there is one, balances each from its `[`, removes
 * trailing commas, and wraps the two in a minimal workflow object.
 */
module Reconstruct {
  import opened Wrappers
  import opened Text
  import opened Repair
  import opened Balance
  import opened Locate

  /** The cleaning applied before the search (workflow-ai.ts:112). */
  function Cleaned(input: string): string {
    StripMeasured(NormalizeQuotes(StripComments(input)))
  }

  /**
   * `s.search(/"key"\s*:\s*\[/)`, then `s.indexOf('[', idx)`: the index of
   * the `[` that opens the array, or none when the key is absent.
   */
  function ArrayStart(s: string, key: string): (r: Option<nat>)
    ensures r.Some? ==> r.value < |s| && s[r.value] == '['
  {
    match SearchKey(s, key, '[', 0)
    case None => None
    case Some((a, _)) =>
      var b := IndexOfChar(s, '[', a);
      if b == |s| then None else Some(b)
  }

  /** The `[` found by `indexOf` is the one the search matched: the `startBracket === -1` branch cannot be taken. */
  lemma ArrayStartIsMatched(s: string, key: string)
    requires '[' !in key
    ensures SearchKey(s, key, '[', 0).Some? ==> ArrayStart(s, key) == Some(SearchKey(s, key, '[', 0).value.1)
  {
    if SearchKey(s, key, '[', 0).Some? {
      var (a, o) := SearchKey(s, key, '[', 0).value;
      forall k | a <= k < o ensures s[k] != '[' {
        if k < a + |key| + 2 {
          QuotedKeyHasNoBracket(s, key, a, k);
        }
      }
      IndexOfCharIs(s, '[', a, o);
    }
  }

  lemma IndexOfCharIs(s: string, c: char, from: nat, o: nat)
    requires from <= o < |s| && s[o] == c && forall k :: from <= k < o ==> s[k] != c
    ensures IndexOfChar(s, c, from) == o
  {
  }

  lemma QuotedKeyHasNoBracket(s: string, key: string, a: nat, k: nat)
    requires '[' !in key && IsAt(s, "\"" + key + "\"", a) && a <= k < a + |key| + 2
    ensures s[k] != '['
  {
    var q := "\"" + key + "\"";
    assert s[k] == s[a..a + |q|][k - a] == q[k - a];
    if 0 < k - a <= |key| {
      assert q[k - a] == key[k - a - 1];
    }
  }

  /** The reconstructed object around the two tidied arrays. */
  function Envelope(nodes: string, edges: string): string {
    "{\"workflow\":{\"nodes\":" + nodes + ",\"edges\":" + edges + "}}"
  }

  /** `reconstructWorkflowJson(input)`, with `null` as `None`. */
  function ReconstructWorkflowJson(input: string): (r: Option<string>)
    ensures r.None? <==> ArrayStart(Cleaned(input), "nodes").None?
  {
    var cleaned := Cleaned(input);
    match ArrayStart(cleaned, "nodes")
    case None => None
    case Some(n) =>
      var nodesArr := BalancedArrayAsWritten(cleaned, n);
      var edgesArr := match ArrayStart(cleaned, "edges")
        case None => "[]"
        case Some(e) => BalancedArrayAsWritten(cleaned, e);
      Some(Envelope(StripTrailingCommas(nodesArr), StripTrailingCommas(edgesArr)))
  }

  // ----- the tidying pass keeps the scan -----

  lemma RunCons(st: ScanState, c: char, rest: string)
    ensures Run(st, [c] + rest) == Run(Step(st, c), rest)
  {
    RunAppend(st, [c], rest);
    assert [c][..0] == [];
  }

  lemma StepValid(st: ScanState, c: char)
    requires Valid(st)
    ensures Valid(Step(st, c))
  {
    RunValid(st, [c]);
    assert [c][..0] == [];
  }

  lemma {:induction false} RunSpacesUnescaped(st: ScanState, t: string)
    requires AllSpace(t) && !st.escaped
    ensures Run(st, t) == st
    decreases |t|
  {
    if t != [] {
      RunSpacesUnescaped(st, t[..|t| - 1]);
      assert IsSpace(t[|t| - 1]);
    }
  }

  /** A comma and whitespace before a closer change nothing the closer does not change itself. */
  lemma CommaGapStep(st: ScanState, gap: string, c: char)
    requires Valid(st) && AllSpace(gap) && IsCloser(c)
    ensures Step(Run(st, [','] + gap), c) == Step(st, c)
  {
    var st1 := Step(st, ',');
    RunCons(st, ',', gap);
    RunSpacesUnescaped(st1, gap);
  }

  /**
   * Removing trailing commas leaves the scan where it was: whatever state the
   * balancer reaches on the text, it reaches on the tidied text.
   */
  lemma {:induction false} TidyKeepsScan(st: ScanState, s: string)
    requires Valid(st)
    ensures Run(st, StripTrailingCommas(s)) == Run(st, s)
    decreases |s|, 1
  {
    if s != [] {
      var j := 1 + LeadingSpaces(s[1..]);
      if s[0] == ',' && j < |s| && IsCloser(s[j]) {
        TidyCommaCase(st, s, j);
      } else {
        TidyCopyCase(st, s);
      }
    }
  }

  lemma {:induction false} TidyCommaCase(st: ScanState, s: string, j: nat)
    requires Valid(st) && 1 <= j < |s| && s[0] == ',' && j == 1 + LeadingSpaces(s[1..]) && IsCloser(s[j])
    ensures Run(st, StripTrailingCommas(s)) == Run(st, s)
    decreases |s|, 0
  {
    assert StripTrailingCommas(s) == [s[j]] + StripTrailingCommas(s[j + 1..]);
    StepValid(st, s[j]);
    TidyKeepsScan(Step(st, s[j]), s[j + 1..]);
    RunCons(st, s[j], StripTrailingCommas(s[j + 1..]));
    CommaGapRun(st, s, j);
  }

  lemma {:induction false} TidyCopyCase(st: ScanState, s: string)
    requires Valid(st) && s != []
    requires StripTrailingCommas(s) == [s[0]] + StripTrailingCommas(s[1..])
    ensures Run(st, StripTrailingCommas(s)) == Run(st, s)
    decreases |s|, 0
  {
    StepValid(st, s[0]);
    TidyKeepsScan(Step(st, s[0]), s[1..]);
    RunCons(st, s[0], StripTrailingCommas(s[1..]));
    RunCons(st, s[0], s[1..]);
    assert s == [s[0]] + s[1..];
  }

  /** Scanning a comma, whitespace and a closer ends where scanning the closer alone does. */
  lemma CommaGapRun(st: ScanState, s: string, j: nat)
    requires Valid(st) && 1 <= j < |s| && s[0] == ',' && j == 1 + LeadingSpaces(s[1..]) && IsCloser(s[j])
    ensures Run(st, s) == Run(Step(st, s[j]), s[j + 1..])
  {
    var gap := s[1..j];
    assert gap == s[1..][..j - 1];
    assert s == ([','] + gap) + [s[j]] + s[j + 1..];
    RunAppend(st, ([','] + gap) + [s[j]], s[j + 1..]);
    RunSnoc(st, [','] + gap, s[j]);
    CommaGapStep(st, gap, s[j]);
  }

  /** A tidied text starts with the first character of the original when that is not a comma. */
  lemma TidyKeepsHead(s: string)
    requires s != [] && s[0] != ','
    ensures StripTrailingCommas(s) != [] && StripTrailingCommas(s)[0] == s[0]
  {
  }

  /** `[]` needs no tidying. */
  lemma TidyEmptyArray(s: string)
    requires s == "[]"
    ensures StripTrailingCommas(s) == s
  {
    assert s[1..] == "]";
    assert StripTrailingCommas("]") == "]";
  }

  /**
   * What `reconstructWorkflowJson` returns for one array: it starts with the
   * `[` the search matched, scans back to the balancer's starting state
   * unless the scan ended right after a backslash inside a string, and
   * differs from the balanced array only by commas and whitespace.
   */
  predicate WellFormedArray(t: string, from: string, at: nat) {
    && at < |from| && from[at] == '['
    && t != [] && t[0] == '['
    && (!Run(Fresh, ArrayScanned(from, at)).escaped ==> Run(Fresh, t) == Fresh)
    && Filter(t, IsEssential) == Filter(BalancedArrayAsWritten(from, at), IsEssential)
  }

  lemma TidiedArray(s: string, n: nat)
    requires n < |s| && s[n] == '['
    ensures WellFormedArray(StripTrailingCommas(BalancedArrayAsWritten(s, n)), s, n)
  {
    var arr := BalancedArrayAsWritten(s, n);
    assert Valid(Fresh);
    TidyKeepsScan(Fresh, arr);
    if !Run(Fresh, ArrayScanned(s, n)).escaped {
      ArrayCorrectionOnlyAfterBackslash(s, n);
      BalancedArrayCloses(s, n);
    }
    StripTrailingCommasEssence(arr);
    BalancedArrayHead(s, n);
    TidyKeepsHead(arr);
  }

  /** A balanced array starts with its `[`. */
  lemma BalancedArrayHead(s: string, n: nat)
    requires n < |s| && s[n] == '['
    ensures BalancedArrayAsWritten(s, n) != [] && BalancedArrayAsWritten(s, n)[0] == '['
  {
    var t := Tail(s, n);
    assert t[0] == '[';
    var k := FirstArrayStopFrom(t, 0);
    if k < |t| {
      assert ArrayScanned(s, n) == t[..k + 1];
    }
  }

  /**
   * When a `"nodes": [` key exists, the result wraps the tidied nodes array
   * and, when a `"edges": [` key exists, the tidied edges array, or `[]`
   * otherwise. Each array starts at the `[` the search matched, scans back to
   * the balancer's starting state (every bracket and string closed) unless
   * its scan ended right after a backslash inside a string, and differs from
   * the balanced array only by commas and whitespace.
   */
  lemma ReconstructShape(input: string)
    ensures var cleaned := Cleaned(input);
      ReconstructWorkflowJson(input).Some? ==>
        exists nodes, edges ::
          && ReconstructWorkflowJson(input) == Some(Envelope(nodes, edges))
          && WellFormedArray(nodes, cleaned, SearchKey(cleaned, "nodes", '[', 0).value.1)
          && (SearchKey(cleaned, "edges", '[', 0).None? ==> edges == "[]")
          && (SearchKey(cleaned, "edges", '[', 0).Some? ==>
                WellFormedArray(edges, cleaned, SearchKey(cleaned, "edges", '[', 0).value.1))
  {
    var cleaned := Cleaned(input);
    ArrayStartIsMatched(cleaned, "nodes");
    ArrayStartIsMatched(cleaned, "edges");
    if ReconstructWorkflowJson(input).Some? {
      var n := ArrayStart(cleaned, "nodes").value;
      var nodes := StripTrailingCommas(BalancedArrayAsWritten(cleaned, n));
      TidiedArray(cleaned, n);
      var edges;
      if ArrayStart(cleaned, "edges").Some? {
        var e := ArrayStart(cleaned, "edges").value;
        edges := StripTrailingCommas(BalancedArrayAsWritten(cleaned, e));
        TidiedArray(cleaned, e);
      } else {
        edges := "[]";
        TidyEmptyArray(edges);
      }
      assert ReconstructWorkflowJson(input) == Some(Envelope(nodes, edges));
    }
  }

  /** Reconstruction gives up exactly when the cleaned text has no `"nodes"\s*:\s*[`. */
  lemma ReconstructNeedsNodes(input: string)
    ensures ReconstructWorkflowJson(input).None? <==>
      forall a :: 0 <= a ==> KeyOpenerAt(Cleaned(input), "nodes", '[', a).None?
  {
    var cleaned := Cleaned(input);
    ArrayStartIsMatched(cleaned, "nodes");
  }
}
