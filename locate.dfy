/**
 * The pattern matching `parseAIWorkflow` does on the model's reply
 * (workflow-ai.ts:246-312 and 361-364), with each regular expression written
 * as an explicit scanner: the streaming guard's checks, the fenced code
 * block, the `"workflow"` object pattern, the one-level object candidates,
 * the `"key": [` searches and the URL extraction.
 */
module Locate {
  import opened Wrappers
  import opened Text

  // ----- streaming guard (workflow-ai.ts:248-259) -----

  /** `s.lastIndexOf(c)`, as an option. */
  function LastIndexOf(s: string, c: char): (r: Option<nat>)
    ensures r.None? <==> c !in s
    ensures r.Some? ==> r.value < |s| && s[r.value] == c && c !in s[r.value + 1..]
    decreases |s|
  {
    if s == [] then None
    else if s[|s| - 1] == c then Some(|s| - 1)
    else
      var r := LastIndexOf(s[..|s| - 1], c);
      assert s == s[..|s| - 1] + [s[|s| - 1]];
      if r.Some? then
        assert s[r.value + 1..] == s[..|s| - 1][r.value + 1..] + [s[|s| - 1]];
        r
      else r
  }

  /**
   * `/:\s*"[^"]*$/`, read from the end: the last `"` of `t`, with only
   * whitespace between it and a colon before it.
   */
  predicate EndsInOpenValue(t: string) {
    match LastIndexOf(t, '"')
    case None => false
    case Some(q) =>
      var k := TrailingSpaces(t[..q]);
      k < q && t[q - k - 1] == ':'
  }

  /** The regular expression matches at `p`: a colon, whitespace, then a `"` with no `"` after it. */
  predicate OpenValueAt(t: string, p: nat, q: nat) {
    p < q < |t| && t[p] == ':' && AllSpace(t[p + 1..q]) && t[q] == '"' && '"' !in t[q + 1..]
  }

  /** A quote with no quote after it is the last quote. */
  lemma LastQuoteIs(t: string, q: nat)
    requires q < |t| && t[q] == '"' && '"' !in t[q + 1..]
    ensures LastIndexOf(t, '"') == Some(q)
  {
    assert t[q] in t;
  }

  /** The trailing whitespace of `x` starts after its last non-space character `p`. */
  lemma TrailingSpacesAfter(x: string, p: nat)
    requires p < |x| && !IsSpace(x[p]) && AllSpace(x[p + 1..])
    ensures TrailingSpaces(x) == |x| - p - 1
  {
  }

  lemma OpenValueFromEnd(t: string)
    requires EndsInOpenValue(t)
    ensures exists p, q :: OpenValueAt(t, p, q)
  {
    var q := LastIndexOf(t, '"').value;
    var k := TrailingSpaces(t[..q]);
    assert t[..q][q - k..] == t[q - k..q];
    assert OpenValueAt(t, q - k - 1, q);
  }

  lemma EndFromOpenValue(t: string, p: nat, q: nat)
    requires OpenValueAt(t, p, q)
    ensures EndsInOpenValue(t)
  {
    LastQuoteIs(t, q);
    var x := t[..q];
    assert x[p + 1..] == t[p + 1..q];
    TrailingSpacesAfter(x, p);
  }

  /** The right-to-left reading agrees with the regular expression. */
  lemma EndsInOpenValueIff(t: string)
    ensures EndsInOpenValue(t) <==> exists p, q :: OpenValueAt(t, p, q)
  {
    if EndsInOpenValue(t) {
      OpenValueFromEnd(t);
    }
    if exists p, q :: OpenValueAt(t, p, q) {
      var p: nat, q: nat :| OpenValueAt(t, p, q);
      EndFromOpenValue(t, p, q);
    }
  }

  /**
   * The streaming guard's test: more `{` than `}`, an odd number of `"`, a
   * trimmed text ending in `,`, or one ending in an unterminated string value.
   */
  predicate LooksIncomplete(s: string) {
    var t := Trim(s);
    Count(s, '{') > Count(s, '}') || Count(s, '"') % 2 != 0 || EndsWith(t, ",") || EndsInOpenValue(t)
  }

  /** The index of the first non-whitespace character at or after `j` (`\s*` from `j`). */
  function SkipSpaces(s: string, j: nat): (r: nat)
    ensures j <= r && (r <= |s| || r == j)
    ensures r < |s| ==> !IsSpace(s[r])
    ensures forall k :: j <= k < r ==> IsSpace(s[k])
    decreases |s| - j
  {
    if j < |s| && IsSpace(s[j]) then SkipSpaces(s, j + 1) else j
  }

  // ----- fenced code blocks (workflow-ai.ts:276-279) -----

  /** Three backticks at `k`. */
  predicate FenceAt(s: string, k: nat) {
    k + 3 <= |s| && s[k] == '`' && s[k + 1] == '`' && s[k + 2] == '`'
  }

  /** The first fence at or after `from`, or `|s|` when there is none. */
  function NextFence(s: string, from: nat): (k: nat)
    requires from <= |s|
    ensures from <= k <= |s|
    ensures k < |s| ==> FenceAt(s, k)
    ensures forall j :: from <= j < k ==> !FenceAt(s, j)
    decreases |s| - from
  {
    if from == |s| || FenceAt(s, from) then from else NextFence(s, from + 1)
  }

  /** "json" right after the fence at `i`, compared without regard to case. */
  predicate JsonTagAt(s: string, i: nat) {
    i + 7 <= |s|
    && LowerChar(s[i + 3]) == 'j' && LowerChar(s[i + 4]) == 's' && LowerChar(s[i + 5]) == 'o' && LowerChar(s[i + 6]) == 'n'
  }

  /** A match of a fence pattern: the captured group is `s[body..close]`. */
  datatype Fenced = Fenced(open: nat, body: nat, close: nat)

  /** The pattern with an opening fence of `width` characters matches at `i`. */
  predicate FenceMatchesAt(s: string, i: nat, width: nat) {
    i + width <= |s|
    && FenceAt(s, i) && (width == 7 ==> JsonTagAt(s, i))
    && NextFence(s, SkipSpaces(s, i + width)) < |s|
  }

  /** `f` is the match of the pattern whose opening fence is at `f.open`. */
  predicate IsFenceMatch(s: string, width: nat, f: Fenced) {
    && FenceMatchesAt(s, f.open, width)
    && f.body == SkipSpaces(s, f.open + width)
    && f.close == NextFence(s, f.body) < |s|
  }

  /**
   * The leftmost match at or after `i` of "```json\s*([\s\S]*?)```" (width 7,
   * case-insensitive) or "```\s*([\s\S]*?)```" (width 3): the whitespace
   * after the opening fence is skipped, and the lazy group ends at the first
   * closing fence after it.
   */
  function FenceFrom(s: string, i: nat, width: nat): (m: Option<Fenced>)
    requires width == 3 || width == 7
    ensures m.Some? ==> i <= m.value.open && IsFenceMatch(s, width, m.value)
    decreases |s| - i
  {
    if i + width > |s| then None
    else if FenceMatchesAt(s, i, width) then
      var b := SkipSpaces(s, i + width);
      Some(Fenced(i, b, NextFence(s, b)))
    else FenceFrom(s, i + 1, width)
  }

  /** No match is missed: when none is found, the pattern matches nowhere from `i` on. */
  lemma {:induction false} FenceFromNone(s: string, i: nat, width: nat)
    requires width == 3 || width == 7
    requires FenceFrom(s, i, width).None?
    ensures forall k :: i <= k ==> !FenceMatchesAt(s, k, width)
    decreases |s| - i
  {
    if i + width <= |s| {
      assert !FenceMatchesAt(s, i, width) && FenceFrom(s, i + 1, width).None?;
      FenceFromNone(s, i + 1, width);
      forall k | i <= k ensures !FenceMatchesAt(s, k, width) {
        if k > i {
          assert i + 1 <= k;
        }
      }
    }
  }

  /** The match found is the leftmost: the pattern matches nowhere between `i` and it. */
  lemma {:induction false} FenceFromLeftmost(s: string, i: nat, width: nat)
    requires width == 3 || width == 7
    requires FenceFrom(s, i, width).Some?
    ensures forall k :: i <= k < FenceFrom(s, i, width).value.open ==> !FenceMatchesAt(s, k, width)
    decreases |s| - i
  {
    if !FenceMatchesAt(s, i, width) {
      var f := FenceFrom(s, i + 1, width);
      assert FenceFrom(s, i, width) == f;
      FenceFromLeftmost(s, i + 1, width);
      forall k | i <= k < f.value.open ensures !FenceMatchesAt(s, k, width) {
        if k > i {
          assert i + 1 <= k;
        }
      }
    }
  }

  /** The captured group lies inside the text and never contains a fence: it stops at the first one. */
  lemma FencedBodyHasNoFence(s: string, f: Fenced, width: nat, i: nat)
    requires width == 3 || width == 7
    requires FenceFrom(s, i, width) == Some(f)
    ensures f.body <= f.close && f.close + 3 <= |s|
    ensures forall k :: f.body <= k < f.close ==> !FenceAt(s, k)
  {
  }

  /**
   * The text of the fenced block the locator takes, trimmed: a "```json"
   * block when there is one, otherwise any fenced block.
   */
  function FencedBlock(s: string): (r: Option<string>)
    ensures r.None? <==> FenceFrom(s, 0, 7).None? && FenceFrom(s, 0, 3).None?
    ensures FenceFrom(s, 0, 7).Some? ==> r == Some(Trim(s[FenceFrom(s, 0, 7).value.body..FenceFrom(s, 0, 7).value.close]))
  {
    match FenceFrom(s, 0, 7)
    case Some(f) => Some(Trim(s[f.body..f.close]))
    case None =>
      match FenceFrom(s, 0, 3)
      case Some(f) => Some(Trim(s[f.body..f.close]))
      case None => None
  }

  // ----- `"key"\s*:\s*<opener>` searches -----

  /** `"key"\s*:\s*` followed by `opener` at `a`: the index of the opener. */
  function KeyOpenerAt(s: string, key: string, opener: char, a: nat): (r: Option<nat>)
    ensures r.Some? ==> a + |key| + 3 <= r.value < |s| && s[r.value] == opener
    ensures r.Some? ==> IsAt(s, "\"" + key + "\"", a)
    ensures r.Some? ==> forall k :: a + |key| + 2 <= k < r.value ==> s[k] == ':' || IsSpace(s[k])
  {
    if !IsAt(s, "\"" + key + "\"", a) then None
    else
      var j := a + |key| + 2;
      var c := SkipSpaces(s, j);
      if c < |s| && s[c] == ':' then
        var o := SkipSpaces(s, c + 1);
        if o < |s| && s[o] == opener then
          Some(o)
        else None
      else None
  }

  /** `s.search(/"key"\s*:\s*<opener>/)` from `from`: the leftmost match and its opener. */
  function SearchKey(s: string, key: string, opener: char, from: nat): (r: Option<(nat, nat)>)
    ensures r.None? ==> forall a :: from <= a ==> KeyOpenerAt(s, key, opener, a).None?
    ensures r.Some? ==> from <= r.value.0 && KeyOpenerAt(s, key, opener, r.value.0) == Some(r.value.1)
    ensures r.Some? ==> forall a :: from <= a < r.value.0 ==> KeyOpenerAt(s, key, opener, a).None?
    decreases |s| - from
  {
    if from >= |s| then None
    else match KeyOpenerAt(s, key, opener, from)
      case Some(o) => Some((from, o))
      case None => SearchKey(s, key, opener, from + 1)
  }

  // ----- the `"workflow"` object pattern (workflow-ai.ts:289-290) -----

  /**
   * `/(\{[\s\S]*?"workflow"\s*:\s*\{[\s\S]*?\}[\s\S]*?\})/`. Every part of the
   * pattern that can grow is lazy and each later candidate only sees a suffix
   * of the text an earlier one saw, so the pattern matches exactly when the
   * first `{`, the first `"workflow": {` after it, and two `}` after that
   * exist; the match runs from that `{` to the second `}`.
   */
  function WorkflowPattern(s: string): (r: Option<(nat, nat)>)
    ensures r.Some? ==> r.value.0 + 2 <= r.value.1 <= |s| && s[r.value.0] == '{' && s[r.value.1 - 1] == '}'
    ensures r.Some? ==> forall k :: 0 <= k < r.value.0 ==> s[k] != '{'
  {
    var i := IndexOfChar(s, '{', 0);
    if i == |s| then None
    else match WorkflowEnd(s, i + 1)
      case None => None
      case Some(e) => Some((i, e))
  }

  /** From `from`: the first `"workflow": {`, then the index after the second `}` that follows its brace. */
  function WorkflowEnd(s: string, from: nat): (e: Option<nat>)
    ensures e.Some? ==> from + 2 <= e.value <= |s| && s[e.value - 1] == '}'
  {
    var key := SearchKey(s, "workflow", '{', from);
    if key.None? then None else SecondCloser(s, key.value.1 + 1)
  }

  /** The index after the second `}` at or after `from`. */
  function SecondCloser(s: string, from: nat): (e: Option<nat>)
    ensures e.Some? ==> from + 2 <= e.value <= |s| && s[e.value - 1] == '}'
  {
    if from > |s| then None
    else
      var c1 := IndexOfChar(s, '}', from);
      if c1 == |s| then None
      else
        var c2 := IndexOfChar(s, '}', c1 + 1);
        if c2 == |s| then None else Some(c2 + 1)
  }

  // ----- one-level object candidates (workflow-ai.ts:294) -----

  /** `{[^{}]*}` from the `{` at `k`: the index after its `}`. */
  function InnerGroupEnd(s: string, k: nat): (e: Option<nat>)
    requires k < |s|
    ensures e.Some? ==> k + 2 <= e.value <= |s| && s[e.value - 1] == '}'
    ensures e.Some? ==> forall j :: k < j < e.value - 1 ==> s[j] != '{' && s[j] != '}'
  {
    var open := IndexOfChar(s, '{', k + 1);
    var close := IndexOfChar(s, '}', k + 1);
    if close < |s| && close < open then Some(close + 1) else None
  }

  /**
   * The body of `\{(?:[^{}]|{[^{}]*})*\}` from `k`, after the opening brace:
   * the star takes brace-free characters and brace-free groups as long as it
   * can, and the match needs a `}` right where it stops (giving items back
   * would leave a character that is not `}`). The index after that `}`.
   */
  function ObjectEnd(s: string, k: nat): (e: Option<nat>)
    ensures e.Some? ==> k < e.value <= |s| && s[e.value - 1] == '}'
    decreases |s| - k
  {
    if k >= |s| then None
    else if s[k] == '}' then Some(k + 1)
    else if s[k] != '{' then ObjectEnd(s, k + 1)
    else match InnerGroupEnd(s, k)
      case None => None
      case Some(e) => ObjectEnd(s, e)
  }

  /** `s.match(/\{(?:[^{}]|{[^{}]*})*\}/g) || []` from `i`: the matches, left to right, not overlapping. */
  function ObjectMatches(s: string, i: nat): (ms: seq<string>)
    ensures forall m :: m in ms ==> |m| >= 2 && m[0] == '{' && m[|m| - 1] == '}'
    ensures forall m :: m in ms ==> exists j :: i <= j <= |s| - |m| && IsAt(s, m, j)
    decreases |s| - i
  {
    if i >= |s| then []
    else if s[i] == '{' && ObjectEnd(s, i + 1).Some? then
      var e := ObjectEnd(s, i + 1).value;
      assert IsAt(s, s[i..e], i);
      [s[i..e]] + ObjectMatches(s, e)
    else ObjectMatches(s, i + 1)
  }

  /** The candidate filter: a `"nodes"` or `"workflow"` key, or more than 500 characters. */
  predicate LooksLikeWorkflow(m: string) {
    Contains(m, "\"nodes\"") || Contains(m, "\"workflow\"") || |m| > 500
  }

  /** `matches.filter(m => m.includes('"nodes"') || m.includes('"workflow"') || m.length > 500)`, in order. */
  function Candidates(ms: seq<string>): (cs: seq<string>)
    ensures |cs| <= |ms|
  {
    if ms == [] then [] else (if LooksLikeWorkflow(ms[0]) then [ms[0]] else []) + Candidates(ms[1..])
  }

  /** The candidates are exactly the matches that look like a workflow. */
  lemma {:induction false} CandidatesMembers(ms: seq<string>)
    ensures forall c :: c in Candidates(ms) <==> c in ms && LooksLikeWorkflow(c)
  {
    if ms != [] {
      CandidatesMembers(ms[1..]);
      assert Candidates(ms) == (if LooksLikeWorkflow(ms[0]) then [ms[0]] else []) + Candidates(ms[1..]);
      assert ms == [ms[0]] + ms[1..];
    }
  }

  /** The first candidate is the first match that looks like a workflow. */
  lemma {:induction false} CandidatesFirst(ms: seq<string>)
    ensures Candidates(ms) != [] ==>
      exists i :: 0 <= i < |ms| && ms[i] == Candidates(ms)[0] && forall j :: 0 <= j < i ==> !LooksLikeWorkflow(ms[j])
  {
    if ms != [] {
      var rest := Candidates(ms[1..]);
      assert Candidates(ms) == (if LooksLikeWorkflow(ms[0]) then [ms[0]] else []) + rest;
      if LooksLikeWorkflow(ms[0]) {
        assert ms[0] == Candidates(ms)[0];
      } else if rest != [] {
        CandidatesFirst(ms[1..]);
        var i :| 0 <= i < |ms[1..]| && ms[1..][i] == rest[0] && forall j :: 0 <= j < i ==> !LooksLikeWorkflow(ms[1..][j]);
        assert forall j :: 1 <= j < i + 1 ==> ms[j] == ms[1..][j - 1];
        assert ms[i + 1] == Candidates(ms)[0] && forall j :: 0 <= j < i + 1 ==> !LooksLikeWorkflow(ms[j]);
      }
    }
  }

  /** Filtering two lists one after the other gives the candidates of each, in order. */
  lemma {:induction false} CandidatesAppend(a: seq<string>, b: seq<string>)
    ensures Candidates(a + b) == Candidates(a) + Candidates(b)
  {
    if a != [] {
      var head := if LooksLikeWorkflow(a[0]) then [a[0]] else [];
      assert (a + b)[0] == a[0] && (a + b)[1..] == a[1..] + b;
      assert Candidates(a + b) == head + Candidates(a[1..] + b);
      CandidatesAppend(a[1..], b);
    } else {
      assert a + b == b;
    }
  }

  /**
   * `cs.reduce((longest, current) => current.length > longest.length ? current : longest)`:
   * the first of the longest candidates.
   */
  function Longest(cs: seq<string>): (r: string)
    requires cs != []
    ensures forall j :: 0 <= j < |cs| ==> |cs[j]| <= |r|
    ensures exists i :: 0 <= i < |cs| && cs[i] == r && forall j :: 0 <= j < i ==> |cs[j]| < |r|
    decreases |cs|
  {
    if |cs| == 1 then cs[0]
    else
      var init := cs[..|cs| - 1];
      var acc := Longest(init);
      var i :| 0 <= i < |init| && init[i] == acc && forall j :: 0 <= j < i ==> |init[j]| < |acc|;
      if |cs[|cs| - 1]| > |acc| then
        assert forall j :: 0 <= j < |cs| - 1 ==> |cs[j]| <= |acc| by {
          forall j | 0 <= j < |cs| - 1 ensures |cs[j]| <= |acc| { assert cs[j] == init[j]; }
        }
        cs[|cs| - 1]
      else
        assert cs[i] == acc;
        assert forall j :: 0 <= j < i ==> cs[j] == init[j];
        assert forall j :: 0 <= j < |cs| - 1 ==> cs[j] == init[j];
        acc
  }

  // ----- URL extraction (workflow-ai.ts:363-365) -----

  /** The characters `[^\s<>"{}|\\^`\[\]]` allows in a URL. */
  predicate IsUrlChar(c: char) {
    !IsSpace(c) && c != '<' && c != '>' && c != '"' && c != '{' && c != '}' && c != '|'
    && c != '\\' && c != '^' && c != '`' && c != '[' && c != ']'
  }

  /** The length of the run of URL characters at `k`. */
  function UrlRun(s: string, k: nat): (n: nat)
    ensures k + n <= |s| || n == 0
    ensures forall j :: k <= j < k + n ==> IsUrlChar(s[j])
    ensures k + n < |s| ==> !IsUrlChar(s[k + n])
    decreases |s| - k
  {
    if k >= |s| || !IsUrlChar(s[k]) then 0 else 1 + UrlRun(s, k + 1)
  }

  /** The scheme `https?://` the pattern accepts at `i`, as its length; 0 when none fits. */
  function SchemeAt(s: string, i: nat): (w: nat)
    ensures w == 0 || w == 7 || w == 8
    ensures w == 8 ==> IsAt(s, "https://", i)
    ensures w == 7 ==> IsAt(s, "http://", i)
    ensures w > 0 ==> UrlRun(s, i + w) > 0
  {
    if IsAt(s, "https://", i) && UrlRun(s, i + 8) > 0 then 8
    else if IsAt(s, "http://", i) && UrlRun(s, i + 7) > 0 then 7
    else 0
  }

  /** A URL the pattern yields: a scheme and one or more URL characters. */
  predicate IsUrl(u: string) {
    ((StartsWith(u, "https://") && |u| > 8) || (StartsWith(u, "http://") && |u| > 7))
    && forall j :: 7 <= j < |u| ==> IsUrlChar(u[j])
  }

  /** `s.match(/https?:\/\/[^\s<>"{}|\\^`\[\]]+/g) || []` from `i`: each URL runs as far as URL characters go. */
  function Urls(s: string, i: nat): (us: seq<string>)
    ensures forall u :: u in us ==> IsUrl(u)
    decreases |s| - i
  {
    if i >= |s| then []
    else
      var w := SchemeAt(s, i);
      if w > 0 then
        var e := i + w + UrlRun(s, i + w);
        var u := s[i..e];
        UrlAt(s, i, w, e);
        [u] + Urls(s, e)
      else Urls(s, i + 1)
  }

  lemma UrlAt(s: string, i: nat, w: nat, e: nat)
    requires w > 0 && SchemeAt(s, i) == w && e == i + w + UrlRun(s, i + w)
    ensures i < e <= |s| && IsUrl(s[i..e])
  {
    var u := s[i..e];
    assert u[..w] == s[i..i + w];
    forall j | 7 <= j < |u| ensures IsUrlChar(u[j]) {
      assert u[j] == s[i + j];
      if j < w {
        assert s[i + j] == s[i..i + w][j] == '/';
      }
    }
  }

  /** A URL naming a destination: it mentions 'httpbin' or 'webhook'. */
  predicate IsDestination(u: string) {
    Contains(u, "httpbin") || Contains(u, "webhook")
  }

  /** `urls.filter(url => url.includes('httpbin') || url.includes('webhook'))`. */
  function Destinations(us: seq<string>): (r: seq<string>)
    ensures |r| <= |us|
  {
    if us == [] then [] else (if IsDestination(us[0]) then [us[0]] else []) + Destinations(us[1..])
  }

  /** The destinations are exactly the URLs naming one. */
  lemma {:induction false} DestinationsMembers(us: seq<string>)
    ensures forall u :: u in Destinations(us) <==> u in us && IsDestination(u)
  {
    if us != [] {
      DestinationsMembers(us[1..]);
      assert Destinations(us) == (if IsDestination(us[0]) then [us[0]] else []) + Destinations(us[1..]);
      assert us == [us[0]] + us[1..];
    }
  }

  /** The first destination is the first URL of the input that names a destination. */
  lemma {:induction false} DestinationsFirst(us: seq<string>)
    ensures Destinations(us) != [] ==>
      exists i :: 0 <= i < |us| && us[i] == Destinations(us)[0] && forall j :: 0 <= j < i ==> !IsDestination(us[j])
  {
    if us != [] {
      var rest := Destinations(us[1..]);
      assert Destinations(us) == (if IsDestination(us[0]) then [us[0]] else []) + rest;
      if IsDestination(us[0]) {
        assert us[0] == Destinations(us)[0];
      } else if rest != [] {
        DestinationsFirst(us[1..]);
        var i :| 0 <= i < |us[1..]| && us[1..][i] == rest[0] && forall j :: 0 <= j < i ==> !IsDestination(us[1..][j]);
        assert forall j :: 1 <= j < i + 1 ==> us[j] == us[1..][j - 1];
        assert us[i + 1] == Destinations(us)[0] && forall j :: 0 <= j < i + 1 ==> !IsDestination(us[j]);
      }
    }
  }

  /** The destinations of two lists one after the other are those of each, in order. */
  lemma {:induction false} DestinationsAppend(a: seq<string>, b: seq<string>)
    ensures Destinations(a + b) == Destinations(a) + Destinations(b)
  {
    if a != [] {
      var head := if IsDestination(a[0]) then [a[0]] else [];
      assert (a + b)[0] == a[0] && (a + b)[1..] == a[1..] + b;
      assert Destinations(a + b) == head + Destinations(a[1..] + b);
      DestinationsAppend(a[1..], b);
      assert Destinations(a) == head + Destinations(a[1..]);
      assert head + (Destinations(a[1..]) + Destinations(b)) == (head + Destinations(a[1..])) + Destinations(b);
    } else {
      assert a + b == b;
    }
  }

  /** `urls.filter(url => !url.includes('httpbin') && !url.includes('webhook'))`. */
  function Sites(us: seq<string>): (r: seq<string>)
    ensures |r| <= |us|
  {
    if us == [] then [] else (if IsDestination(us[0]) then [] else [us[0]]) + Sites(us[1..])
  }

  /** The sites are exactly the URLs naming no destination. */
  lemma {:induction false} SitesMembers(us: seq<string>)
    ensures forall u :: u in Sites(us) <==> u in us && !IsDestination(u)
  {
    if us != [] {
      SitesMembers(us[1..]);
      assert Sites(us) == (if IsDestination(us[0]) then [] else [us[0]]) + Sites(us[1..]);
      assert us == [us[0]] + us[1..];
    }
  }

  /** The first site is the first URL of the input that names none. */
  lemma {:induction false} SitesFirst(us: seq<string>)
    ensures Sites(us) != [] ==>
      exists i :: 0 <= i < |us| && us[i] == Sites(us)[0] && forall j :: 0 <= j < i ==> IsDestination(us[j])
  {
    if us != [] {
      var rest := Sites(us[1..]);
      assert Sites(us) == (if IsDestination(us[0]) then [] else [us[0]]) + rest;
      if !IsDestination(us[0]) {
        assert us[0] == Sites(us)[0];
      } else if rest != [] {
        SitesFirst(us[1..]);
        var i :| 0 <= i < |us[1..]| && us[1..][i] == rest[0] && forall j :: 0 <= j < i ==> IsDestination(us[1..][j]);
        assert forall j :: 1 <= j < i + 1 ==> us[j] == us[1..][j - 1];
        assert us[i + 1] == Sites(us)[0] && forall j :: 0 <= j < i + 1 ==> IsDestination(us[j]);
      }
    }
  }

  /** The sites of two lists one after the other are those of each, in order. */
  lemma {:induction false} SitesAppend(a: seq<string>, b: seq<string>)
    ensures Sites(a + b) == Sites(a) + Sites(b)
  {
    if a != [] {
      var head := if IsDestination(a[0]) then [] else [a[0]];
      assert (a + b)[0] == a[0] && (a + b)[1..] == a[1..] + b;
      assert Sites(a + b) == head + Sites(a[1..] + b);
      SitesAppend(a[1..], b);
      assert Sites(a) == head + Sites(a[1..]);
      assert head + (Sites(a[1..]) + Sites(b)) == (head + Sites(a[1..])) + Sites(b);
    } else {
      assert a + b == b;
    }
  }

  /** Every URL is a destination or a site, never both: the two lists split the URLs between them. */
  lemma {:induction false} UrlsSplit(us: seq<string>)
    ensures |Destinations(us)| + |Sites(us)| == |us|
  {
    if us != [] {
      UrlsSplit(us[1..]);
    }
  }
}
