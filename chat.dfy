/**
 * The logic of the chat panel (`ChatInterface`) apart from its rendering:
 * the intent guess, the workflow title, the offline fallback workflow, the
 * merge of a reply into the workflow being edited, the prompt a reply
 * answers, and the list of saved conversations.
 *
 * Clocks are parameters; `localStorage`, toasts, `fetch` and the JSX are not
 * part of this model. `toLowerCase` and `toUpperCase` act on ASCII letters.
 */
module Chat {
  import opened Wrappers
  import opened Text
  import opened Js
  import opened Graph
  import opened Parse

  // ---------------------------------------------------------------------------
  // Keyword tables (ChatInterface.tsx:149-174, 519-553)

  /** Some word of `words` occurs in `p` (`words.some(word => p.includes(word))`). */
  predicate MentionsAny(p: string, words: seq<string>) {
    exists i :: 0 <= i < |words| && Contains(p, words[i])
  }

  /** An entry of an `if … else if …` chain: any of the words selects the label. */
  datatype Rule = Rule(words: seq<string>, choice: string)

  /** The index of the first rule one of whose words occurs in `p`; `|rules|` when none does. */
  function FirstHit(p: string, rules: seq<Rule>): (k: nat)
    ensures k <= |rules|
    ensures k < |rules| ==> MentionsAny(p, rules[k].words)
    ensures forall j :: 0 <= j < k ==> !MentionsAny(p, rules[j].words)
  {
    if rules == [] then 0
    else if MentionsAny(p, rules[0].words) then 0
    else 1 + FirstHit(p, rules[1..])
  }

  /** The label of the first rule that fires, or `otherwise`. */
  function Choose(p: string, rules: seq<Rule>, otherwise: string): (chosen: string)
    ensures var k := FirstHit(p, rules); chosen == if k < |rules| then rules[k].choice else otherwise
  {
    var k := FirstHit(p, rules);
    if k < |rules| then rules[k].choice else otherwise
  }

  // ---------------------------------------------------------------------------
  // analyzeUserIntent (ChatInterface.tsx:149-174)

  const CreateWords := ["create", "build", "make", "generate", "new", "start"]
  const ModifyWords := ["modify", "change", "update", "edit", "fix", "improve", "add", "remove", "delete"]

  datatype Intent = Intent(intent: string, confidence: real, suggestedActions: seq<string>)

  /**
   * `analyzeUserIntent(message)`: a create word makes it a creation with
   * confidence 0.8 whatever else the message says; failing that a modify
   * word makes it a modification with 0.9; otherwise a creation with 0.5.
   * Words are matched as substrings of the lower-cased message.
   */
  function AnalyzeUserIntent(message: string): (r: Intent)
    ensures var p := LowerAscii(message);
      && (r.intent == "modify" <==> !MentionsAny(p, CreateWords) && MentionsAny(p, ModifyWords))
      && (r.intent == "create" <==> !(r.intent == "modify"))
      && (MentionsAny(p, CreateWords) ==> r.confidence == 0.8)
      && (r.intent == "modify" ==> r.confidence == 0.9)
      && (!MentionsAny(p, CreateWords) && !MentionsAny(p, ModifyWords) ==> r.confidence == 0.5)
  {
    var lowerMessage := LowerAscii(message);
    if MentionsAny(lowerMessage, CreateWords) then
      Intent("create", 0.8, ["Generate new workflow", "Add specific components", "Set up data sources"])
    else if MentionsAny(lowerMessage, ModifyWords) then
      Intent("modify", 0.9, ["Update existing nodes", "Modify workflow logic", "Add new connections"])
    else Intent("create", 0.5, ["Create workflow", "Provide more details"])
  }

  /** A message that asks to add to a workflow is read as a creation when it also says "new". */
  lemma CreateWordWins(message: string)
    requires Contains(LowerAscii(message), "add") && Contains(LowerAscii(message), "new")
    ensures AnalyzeUserIntent(message).intent == "create"
    ensures AnalyzeUserIntent(message).confidence == 0.8
  {
    assert CreateWords[4] == "new";
  }

  // ---------------------------------------------------------------------------
  // generateWorkflowTitle (ChatInterface.tsx:519-553)

  const ActionRules := [Rule(["scrape"], "Scrape"), Rule(["collect"], "Collect"), Rule(["gather"], "Gather"),
                        Rule(["monitor"], "Monitor")]

  const TargetRules := [
    Rule(["price"], "Prices"),
    Rule(["product"], "Products"),
    Rule(["title", "headline"], "Titles"),
    Rule(["review"], "Reviews"),
    Rule(["contact", "email"], "Contacts"),
    Rule(["job", "listing"], "Job Listings"),
    Rule(["news", "article"], "Articles"),
    Rule(["image", "photo"], "Images")
  ]

  /** `[a-zA-Z0-9-]` */
  predicate IsLabelChar(c: char) {
    ('a' <= c <= 'z') || ('A' <= c <= 'Z') || ('0' <= c <= '9') || c == '-'
  }

  /** `[a-zA-Z]` */
  predicate IsLetter(c: char) {
    ('a' <= c <= 'z') || ('A' <= c <= 'Z')
  }

  /** The length of the run of characters satisfying `ok` at `k`. */
  function RunOf(s: string, k: nat, ok: char -> bool): (n: nat)
    ensures k + n <= |s| || n == 0
    ensures forall j :: k <= j < k + n ==> ok(s[j])
    ensures k + n < |s| ==> !ok(s[k + n])
    decreases |s| - k
  {
    if k >= |s| || !ok(s[k]) then 0 else 1 + RunOf(s, k + 1, ok)
  }

  /**
   * `([a-zA-Z0-9-]+\.[a-zA-Z]{2,})` at `j`: a label, a dot and two or more
   * letters, each run as long as it goes (a shorter label cannot be followed
   * by the dot, and the letter run is greedy).
   */
  function HostAt(s: string, j: nat): (r: Option<string>)
    ensures r.Some? ==> exists e :: j < e <= |s| && r.value == s[j..e] && '.' in r.value
  {
    var host := RunOf(s, j, IsLabelChar);
    if host == 0 || j + host >= |s| || s[j + host] != '.' then None
    else
      var tld := RunOf(s, j + host + 1, IsLetter);
      if tld < 2 then None
      else
        var e := j + host + 1 + tld;
        assert s[j..e][host] == '.';
        Some(s[j..e])
  }

  /** `(?:www\.)?` then the host, at `j`: the prefix is taken when the host still matches after it. */
  function AfterScheme(s: string, j: nat): Option<string> {
    if IsAt(s, "www.", j) && HostAt(s, j + 4).Some? then HostAt(s, j + 4) else HostAt(s, j)
  }

  /** The length of `https?:\/\/` at `i`, 0 when it is not there. */
  function SchemeLength(s: string, i: nat): (w: nat)
    ensures w == 0 || w == 7 || w == 8
  {
    if IsAt(s, "https://", i) then 8 else if IsAt(s, "http://", i) then 7 else 0
  }

  /** The whole pattern tried at `i`: with the scheme when the rest matches after it, else without. */
  function DomainAt(s: string, i: nat): Option<string> {
    var w := SchemeLength(s, i);
    if w > 0 && AfterScheme(s, i + w).Some? then AfterScheme(s, i + w) else AfterScheme(s, i)
  }

  /** `prompt.match(/(?:https?:\/\/)?(?:www\.)?([a-zA-Z0-9-]+\.[a-zA-Z]{2,})/)?.[1]`: the leftmost match's host. */
  function FirstDomain(s: string, i: nat): (r: Option<string>)
    ensures r.Some? ==> r.value != []
    decreases |s| - i
  {
    if i >= |s| then None
    else if DomainAt(s, i).Some? then DomainAt(s, i)
    else FirstDomain(s, i + 1)
  }

  /** The host found is that of the leftmost position where the pattern matches. */
  lemma {:induction false} FirstDomainLeftmost(s: string, i: nat)
    requires FirstDomain(s, i).Some?
    ensures exists k :: i <= k < |s| && DomainAt(s, k) == FirstDomain(s, i) && forall j :: i <= j < k ==> DomainAt(s, j).None?
    decreases |s| - i
  {
    if DomainAt(s, i).None? {
      var r := FirstDomain(s, i + 1);
      assert FirstDomain(s, i) == r;
      FirstDomainLeftmost(s, i + 1);
      var k :| i + 1 <= k < |s| && DomainAt(s, k) == r && forall j :: i + 1 <= j < k ==> DomainAt(s, j).None?;
      assert forall j :: i <= j < k ==> DomainAt(s, j).None?;
    } else {
      assert DomainAt(s, i) == FirstDomain(s, i);
    }
  }

  /** No host is found only when the pattern matches nowhere from `i` on. */
  lemma {:induction false} FirstDomainNone(s: string, i: nat)
    requires FirstDomain(s, i).None?
    ensures forall j :: i <= j < |s| ==> DomainAt(s, j).None?
    decreases |s| - i
  {
    if i < |s| {
      assert DomainAt(s, i).None? && FirstDomain(s, i + 1).None?;
      FirstDomainNone(s, i + 1);
      assert forall j :: i + 1 <= j < |s| ==> DomainAt(s, j).None?;
    }
  }

  /** `s.replace(sub, replacement)` with a string pattern: the first occurrence only. */
  function ReplaceFirst(s: string, sub: string, replacement: string): (r: string)
    ensures Find(s, sub, 0) == -1 ==> r == s
    ensures Find(s, sub, 0) != -1 ==> r == s[..Find(s, sub, 0)] + replacement + s[Find(s, sub, 0) + |sub|..]
  {
    var k := Find(s, sub, 0);
    if k == -1 then s else s[..k] + replacement + s[k + |sub|..]
  }

  /** `\w` */
  predicate IsWordChar(c: char) {
    (IsLabelChar(c) && c != '-') || c == '_'
  }

  /** `\b\w` at `i`: a word character not preceded by one. */
  predicate WordStart(s: string, i: nat)
    requires i < |s|
  {
    IsWordChar(s[i]) && (i == 0 || !IsWordChar(s[i - 1]))
  }

  /** No word of `s` starts with a lower-case letter. */
  predicate Capitalized(s: string) {
    forall i :: 0 <= i < |s| && WordStart(s, i) ==> !('a' <= s[i] <= 'z')
  }

  /** `s.replace(/\b\w/g, l => l.toUpperCase())`. */
  function CapitalizeWords(s: string): (r: string)
    ensures |r| == |s|
    ensures forall i :: 0 <= i < |s| ==> r[i] == if WordStart(s, i) then UpperChar(s[i]) else s[i]
    ensures Capitalized(r)
  {
    var r := seq(|s|, i requires 0 <= i < |s| => if WordStart(s, i) then UpperChar(s[i]) else s[i]);
    assert forall i :: 0 <= i < |s| ==> (IsWordChar(r[i]) <==> IsWordChar(s[i]));
    r
  }

  /** Capitalising text whose words already start with a capital changes nothing. */
  lemma CapitalizedFixed(s: string)
    requires Capitalized(s)
    ensures CapitalizeWords(s) == s
  {
  }

  /** Word starts of a concatenation are word starts of its parts, so capitals survive it. */
  lemma CapitalizedJoin(a: string, b: string)
    requires Capitalized(a) && Capitalized(b)
    ensures Capitalized(a + b)
  {
    var s := a + b;
    forall i | 0 <= i < |s| && WordStart(s, i) ensures !('a' <= s[i] <= 'z') {
      if i < |a| {
        assert WordStart(a, i);
      } else if i > |a| {
        assert s[i - 1] == b[i - |a| - 1];
        assert WordStart(b, i - |a|);
      } else {
        assert WordStart(b, 0);
      }
    }
  }

  /** After a character that is not a word character, capitalisation restarts: it acts on each side separately. */
  lemma CapitalizeSplit(a: string, b: string)
    requires a != [] && !IsWordChar(a[|a| - 1])
    ensures CapitalizeWords(a + b) == CapitalizeWords(a) + CapitalizeWords(b)
  {
    var s := a + b;
    var c := CapitalizeWords(s);
    var ca := CapitalizeWords(a);
    var cb := CapitalizeWords(b);
    forall i | 0 <= i < |s| ensures c[i] == (ca + cb)[i] {
      if i < |a| {
        assert s[i] == a[i];
        if i > 0 { assert s[i - 1] == a[i - 1]; }
        assert WordStart(s, i) == WordStart(a, i);
        assert (ca + cb)[i] == ca[i];
      } else {
        var j := i - |a|;
        assert s[i] == b[j];
        if j > 0 { assert s[i - 1] == b[j - 1]; } else { assert s[i - 1] == a[|a| - 1]; }
        assert WordStart(s, i) == WordStart(b, j);
        assert (ca + cb)[i] == cb[j];
      }
    }
    assert c == ca + cb;
  }

  /** A capital followed by lower-case letters is a capitalised word. */
  lemma CapitalWord(w: string)
    requires w != [] && 'A' <= w[0] <= 'Z'
    requires forall i :: 1 <= i < |w| ==> 'a' <= w[i] <= 'z'
    ensures Capitalized(w)
  {
    forall i | 0 <= i < |w| && WordStart(w, i) ensures !('a' <= w[i] <= 'z') {
      if i > 0 {
        assert IsWordChar(w[i - 1]);
      }
    }
  }

  lemma SpaceCapitalized()
    ensures Capitalized(" ")
  {
    assert !WordStart(" ", 0);
  }

  lemma JobListingsCapitalized()
    ensures Capitalized("Job Listings")
  {
    CapitalWord("Job");
    CapitalWord("Listings");
    SpaceCapitalized();
    CapitalizedJoin("Job", " ");
    CapitalizedJoin("Job ", "Listings");
    assert "Job " + "Listings" == "Job Listings";
  }

  lemma ActionChoicesCapitalized()
    ensures forall k :: 0 <= k < |ActionRules| ==> Capitalized(ActionRules[k].choice)
    ensures Capitalized("Extract")
  {
    CapitalWord("Scrape");
    CapitalWord("Collect");
    CapitalWord("Gather");
    CapitalWord("Monitor");
    CapitalWord("Extract");
  }

  lemma FirstTargetsCapitalized()
    ensures forall k :: 0 <= k < 4 ==> Capitalized(TargetRules[k].choice)
  {
    CapitalWord("Prices");
    CapitalWord("Products");
    CapitalWord("Titles");
    CapitalWord("Reviews");
  }

  lemma LastTargetsCapitalized()
    ensures forall k :: 4 <= k < |TargetRules| ==> Capitalized(TargetRules[k].choice)
    ensures Capitalized("Data")
  {
    CapitalWord("Contacts");
    JobListingsCapitalized();
    CapitalWord("Articles");
    CapitalWord("Images");
    CapitalWord("Data");
  }

  /** The action and the target, joined by a space, start every word with a capital. */
  lemma HeadCapitalized(p: string)
    ensures Capitalized(Choose(p, ActionRules, "Extract") + " " + Choose(p, TargetRules, "Data"))
  {
    var action := Choose(p, ActionRules, "Extract");
    var target := Choose(p, TargetRules, "Data");
    ActionChoicesCapitalized();
    FirstTargetsCapitalized();
    LastTargetsCapitalized();
    SpaceCapitalized();
    CapitalizedJoin(action, " ");
    CapitalizedJoin(action + " ", target);
  }

  lemma FromWord()
    ensures CapitalizeWords("from ") == "From "
  {
    assert WordStart("from ", 0);
  }

  lemma FromSplit(d: string)
    ensures CapitalizeWords("from " + d) == "From " + CapitalizeWords(d)
  {
    CapitalizeSplit("from ", d);
    FromWord();
  }

  lemma HeadSpace(head: string)
    requires Capitalized(head)
    ensures CapitalizeWords(head + " ") == head + " "
  {
    SpaceCapitalized();
    CapitalizedJoin(head, " ");
    CapitalizedFixed(head + " ");
  }

  /** ` from <domain>` after a capitalised head: the head is kept and `From` and the domain are capitalised. */
  lemma FromCapitalized(head: string, d: string)
    requires Capitalized(head)
    ensures CapitalizeWords(head + (" from " + d)) == head + (" From " + CapitalizeWords(d))
  {
    var a := head + " ";
    var b := "from " + d;
    calc {
      CapitalizeWords(head + (" from " + d));
      { assert head + (" from " + d) == a + b; }
      CapitalizeWords(a + b);
      { CapitalizeSplit(a, b); }
      CapitalizeWords(a) + CapitalizeWords(b);
      { HeadSpace(head); FromSplit(d); }
      a + ("From " + CapitalizeWords(d));
      head + (" From " + CapitalizeWords(d));
    }
  }

  /** `${action} ${target}` before capitalisation, and the ` from <domain>` part when a domain matched. */
  function TitleParts(prompt: string): (string, string) {
    var action := Choose(prompt, ActionRules, "Extract");
    var target := Choose(prompt, TargetRules, "Data");
    var domain := FirstDomain(prompt, 0);
    (action + " " + target, if domain.Some? then " from " + ReplaceFirst(domain.value, "www.", "") else "")
  }

  /** `generateWorkflowTitle(userPrompt)`. */
  function GenerateWorkflowTitle(userPrompt: string): (title: string)
    ensures Capitalized(title)
  {
    var parts := TitleParts(LowerAscii(userPrompt));
    CapitalizeWords(parts.0 + parts.1)
  }

  /**
   * The title is the action (the first of scrape, collect, gather, monitor
   * found in the lower-cased prompt, else Extract), a space, the target (the
   * first label of the precedence list whose words occur, else Data) and,
   * only when a domain matched, ` From ` and the capitalised domain with
   * its first `www.` removed.
   */
  lemma TitleShape(userPrompt: string)
    ensures var p := LowerAscii(userPrompt);
      var head := Choose(p, ActionRules, "Extract") + " " + Choose(p, TargetRules, "Data");
      var title := GenerateWorkflowTitle(userPrompt);
      && (FirstDomain(p, 0).None? ==> title == head)
      && (FirstDomain(p, 0).Some? ==>
            title == head + (" From " + CapitalizeWords(ReplaceFirst(FirstDomain(p, 0).value, "www.", ""))))
  {
    var p := LowerAscii(userPrompt);
    var head := Choose(p, ActionRules, "Extract") + " " + Choose(p, TargetRules, "Data");
    var parts := TitleParts(p);
    assert parts.0 == head;
    assert GenerateWorkflowTitle(userPrompt) == CapitalizeWords(head + parts.1);
    HeadCapitalized(p);
    var domain := FirstDomain(p, 0);
    if domain.Some? {
      FromCapitalized(head, ReplaceFirst(domain.value, "www.", ""));
    } else {
      assert head + parts.1 == head;
      CapitalizedFixed(head);
    }
  }

  // ---------------------------------------------------------------------------
  // generateFallbackWorkflow (ChatInterface.tsx:555-619)

  /** `[^\s]` */
  predicate IsNonSpace(c: char) {
    !IsSpace(c)
  }

  /** `https?:\/\/[^\s]+` at `i`: its length, 0 when it does not match there. */
  function HttpUrlLength(s: string, i: nat): (n: nat)
    ensures n > 0 ==> 7 < n && i + n <= |s|
    ensures n > 0 ==> (IsAt(s, "https://", i) || IsAt(s, "http://", i))
    ensures n > 0 ==> forall j :: i + 7 <= j < i + n ==> !IsSpace(s[j])
  {
    var w := SchemeLength(s, i);
    var run := RunOf(s, i + w, IsNonSpace);
    if w > 0 && run > 0 then w + run else 0
  }

  /** An input holding an http(s) URL includes `http`. */
  lemma UrlMentionsHttp(s: string, i: nat)
    requires HttpUrlLength(s, i) > 0
    ensures Contains(s, "http")
  {
    assert s[i..i + 4] == "http" by {
      if IsAt(s, "https://", i) {
        assert s[i..i + 4] == s[i..i + 8][..4];
      } else {
        assert s[i..i + 4] == s[i..i + 7][..4];
      }
    }
    ContainsAt(s, "http", i);
  }

  /** The position of the leftmost match of `https?:\/\/[^\s]+` at or after `i`; `|s|` when there is none. */
  function FirstHttpUrl(s: string, i: nat): (k: nat)
    ensures i <= k
    ensures k < |s| ==> HttpUrlLength(s, k) > 0
    ensures k >= |s| ==> k == i || k == |s|
    decreases |s| - i
  {
    if i >= |s| then i
    else if HttpUrlLength(s, i) > 0 then i
    else FirstHttpUrl(s, i + 1)
  }

  /** No http(s) URL starts before the one found. */
  lemma {:induction false} FirstHttpUrlLeftmost(s: string, i: nat)
    ensures forall j :: i <= j < FirstHttpUrl(s, i) && j < |s| ==> HttpUrlLength(s, j) == 0
    decreases |s| - i
  {
    if i < |s| && HttpUrlLength(s, i) == 0 {
      var k := FirstHttpUrl(s, i + 1);
      assert FirstHttpUrl(s, i) == k;
      FirstHttpUrlLeftmost(s, i + 1);
      forall j | i <= j < k && j < |s| ensures HttpUrlLength(s, j) == 0 {
        if j != i {
          assert i + 1 <= j;
        }
      }
    }
  }

  /** The `Website Url` of the fallback: the first http(s) URL of the input, else the example site. */
  function FallbackSite(userInput: string): (url: string)
    ensures var k := FirstHttpUrl(userInput, 0);
      && (k < |userInput| ==> url == userInput[k..k + HttpUrlLength(userInput, k)])
      && (k >= |userInput| ==> url == DefaultSite)
  {
    if Contains(userInput, "http") then
      var k := FirstHttpUrl(userInput, 0);
      if k < |userInput| then userInput[k..k + HttpUrlLength(userInput, k)] else DefaultSite
    else
      NoHttpNoUrl(userInput);
      DefaultSite
  }

  /** A text that never mentions `http` holds no http(s) URL. */
  lemma NoHttpNoUrl(s: string)
    requires !Contains(s, "http")
    ensures FirstHttpUrl(s, 0) >= |s|
  {
    var k := FirstHttpUrl(s, 0);
    if k < |s| {
      UrlMentionsHttp(s, k);
    }
  }

  const SelectorRules := [
    Rule(["price"], ".price, [class*=\"price\"]"),
    Rule(["title"], "h1, .title, [class*=\"title\"]"),
    Rule(["review"], ".review, [class*=\"review\"]")
  ]

  const DefaultChatSelector := "h1, .title, .content"

  /** The three chained nodes of the fallback, opening `url` and extracting by `selector`. */
  function FallbackGraph(ts: int, url: string, selector: string): (w: Workflow)
    ensures |w.nodes| == 3 && |w.edges| == 2
  {
    Workflow(
      [ FallbackNode(ts, 1, LaunchBrowser, [Field("Website Url", Str(url))], 0),
        FallbackNode(ts, 2, PageToHtml, [Field("Web page", Str(""))], 400),
        FallbackNode(ts, 3, ExtractText, [Field("HTML", Str("")), Field("Selector", Str(selector))], 800) ],
      [FallbackEdge(ts, 1), FallbackEdge(ts, 2)])
  }

  /** `generateFallbackWorkflow(userInput)` at time `ts`. */
  function GenerateFallbackWorkflow(userInput: string, ts: int): (w: Workflow)
    ensures |w.nodes| == 3 && |w.edges| == 2 && Chains(w)
    ensures forall i, j :: 0 <= i < j < 3 ==> IdOf(w.nodes[i]) != IdOf(w.nodes[j])
    ensures TaskKind(w.nodes[0]) == LaunchBrowser
      && OptGet(OptGet(OptGet(w.nodes[0], "data"), "inputs"), "Website Url") == Str(FallbackSite(userInput))
    ensures TaskKind(w.nodes[2]) == ExtractText
      && OptGet(OptGet(OptGet(w.nodes[2], "data"), "inputs"), "Selector") == Str(FallbackSelector(LowerAscii(userInput)))
  {
    var url := FallbackSite(userInput);
    var selector := FallbackSelector(LowerAscii(userInput));
    FallbackGraphChains(ts, url, selector);
    FallbackGraphInputs(ts, url, selector);
    FallbackGraph(ts, url, selector)
  }

  /** The fallback's nodes are the three chain nodes and its edges the two chain edges. */
  lemma FallbackGraphParts(ts: int, url: string, selector: string)
    ensures var w := FallbackGraph(ts, url, selector);
      && |w.nodes| == 3 && |w.edges| == 2
      && (forall k :: 0 <= k < 3 ==> IsFallbackNode(w.nodes[k], ts, k + 1))
      && (forall k :: 0 <= k < 2 ==> w.edges[k] == FallbackEdge(ts, k + 1))
  {
    FallbackGraphNodes(ts, url, selector);
    assert FallbackGraph(ts, url, selector).edges == [FallbackEdge(ts, 1), FallbackEdge(ts, 2)];
  }

  lemma FallbackGraphNodes(ts: int, url: string, selector: string)
    ensures var nodes := FallbackGraph(ts, url, selector).nodes;
      && |nodes| == 3
      && (forall k :: 0 <= k < 3 ==> IsFallbackNode(nodes[k], ts, k + 1))
  {
    var nodes := FallbackGraph(ts, url, selector).nodes;
    FallbackNodeReads(ts, 1, LaunchBrowser, [Field("Website Url", Str(url))], 0);
    FallbackNodeReads(ts, 2, PageToHtml, [Field("Web page", Str(""))], 400);
    FallbackNodeReads(ts, 3, ExtractText, [Field("HTML", Str("")), Field("Selector", Str(selector))], 800);
    ThreeFallbackNodes(nodes, ts);
  }

  lemma ThreeFallbackNodes(nodes: seq<Value>, ts: int)
    requires |nodes| == 3
    requires IsFallbackNode(nodes[0], ts, 1) && IsFallbackNode(nodes[1], ts, 2) && IsFallbackNode(nodes[2], ts, 3)
    ensures forall k :: 0 <= k < 3 ==> IsFallbackNode(nodes[k], ts, k + 1)
  {
    forall k | 0 <= k < 3 ensures IsFallbackNode(nodes[k], ts, k + 1) {
      if k == 0 {
      } else if k == 1 {
      } else {
      }
    }
  }

  /** The fallback always has three nodes with distinct ids chained by two edges: node 1 to 2 and node 2 to 3. */
  lemma FallbackGraphChains(ts: int, url: string, selector: string)
    ensures var w := FallbackGraph(ts, url, selector);
      && |w.nodes| == 3 && |w.edges| == 2
      && Chains(w)
      && (forall i, j :: 0 <= i < j < 3 ==> IdOf(w.nodes[i]) != IdOf(w.nodes[j]))
  {
    FallbackGraphParts(ts, url, selector);
    FallbackChains(FallbackGraph(ts, url, selector), ts);
  }

  /** The first node launches the browser on `url`; the third extracts by `selector`. */
  lemma FallbackGraphInputs(ts: int, url: string, selector: string)
    ensures var w := FallbackGraph(ts, url, selector);
      && TaskKind(w.nodes[0]) == LaunchBrowser
      && OptGet(OptGet(OptGet(w.nodes[0], "data"), "inputs"), "Website Url") == Str(url)
      && TaskKind(w.nodes[2]) == ExtractText
      && OptGet(OptGet(OptGet(w.nodes[2], "data"), "inputs"), "Selector") == Str(selector)
  {
    var w := FallbackGraph(ts, url, selector);
    var extract := [Field("HTML", Str("")), Field("Selector", Str(selector))];
    assert w.nodes[0] == FallbackNode(ts, 1, LaunchBrowser, [Field("Website Url", Str(url))], 0);
    assert w.nodes[2] == FallbackNode(ts, 3, ExtractText, extract, 800);
    FallbackNodeInput(ts, 1, LaunchBrowser, [Field("Website Url", Str(url))], 0, 0);
    FallbackNodeInput(ts, 3, ExtractText, extract, 800, 1);
  }

  /** The `i`-th input of a fallback node reads back, under its kind. */
  lemma FallbackNodeInput(ts: int, k: nat, kind: string, inputs: seq<Field>, x: int, i: nat)
    requires kind == FallbackKind(k)
    requires i < |inputs| && forall j :: 0 <= j < i ==> inputs[j].key != inputs[i].key
    ensures TaskKind(FallbackNode(ts, k, kind, inputs, x)) == kind
    ensures OptGet(OptGet(OptGet(FallbackNode(ts, k, kind, inputs, x), "data"), "inputs"), inputs[i].key) == inputs[i].val
  {
    FallbackNodeReads(ts, k, kind, inputs, x);
    LookupAt(inputs, i);
  }

  /** The selector is chosen by price, then title, then review, then a default. */
  function FallbackSelector(lower: string): (selector: string)
    ensures selector == if MentionsAny(lower, ["price"]) then ".price, [class*=\"price\"]"
                        else if MentionsAny(lower, ["title"]) then "h1, .title, [class*=\"title\"]"
                        else if MentionsAny(lower, ["review"]) then ".review, [class*=\"review\"]"
                        else DefaultChatSelector
  {
    var k := FirstHit(lower, SelectorRules);
    assert SelectorRules[0].words == ["price"] && SelectorRules[1].words == ["title"]
        && SelectorRules[2].words == ["review"];
    assert k == 3 ==> !MentionsAny(lower, ["price"]) && !MentionsAny(lower, ["title"]) && !MentionsAny(lower, ["review"]);
    Choose(lower, SelectorRules, DefaultChatSelector)
  }

  // ---------------------------------------------------------------------------
  // Messages (ChatInterface.tsx:16-36, 718-723)

  datatype Role = User | Assistant

  datatype Message = Message(id: string, role: Role, content: string, workflow: Value, timestamp: string)

  datatype SavedConversation = SavedConversation(
    id: string, title: string, messages: seq<Message>, timestamp: string, lastUpdated: string)

  /** `messages.findIndex(m => m.id === messageId)`. */
  function IndexOfId(messages: seq<Message>, messageId: string): (k: int)
    ensures -1 <= k < |messages|
    ensures k >= 0 ==> messages[k].id == messageId && forall j :: 0 <= j < k ==> messages[j].id != messageId
    ensures k == -1 ==> forall j :: 0 <= j < |messages| ==> messages[j].id != messageId
  {
    if messages == [] then -1
    else if messages[0].id == messageId then 0
    else
      var k := IndexOfId(messages[1..], messageId);
      if k == -1 then -1 else k + 1
  }

  /** The content of the first user message, or '' (`messages.find(m => m.role === 'user')?.content || ''`). */
  function FirstUserContent(messages: seq<Message>): (c: string)
    ensures c != "" ==> exists j :: 0 <= j < |messages| && messages[j].role == User && messages[j].content == c
                                    && forall i :: 0 <= i < j ==> messages[i].role != User
    ensures (forall j :: 0 <= j < |messages| ==> messages[j].role != User) ==> c == ""
  {
    if messages == [] then ""
    else if messages[0].role == User then messages[0].content
    else
      var c := FirstUserContent(messages[1..]);
      assert c != "" ==> exists j :: 1 <= j < |messages| && messages[j].role == User && messages[j].content == c
                                     && forall i :: 0 <= i < j ==> messages[i].role != User by {
        if c != "" {
          var j :| 0 <= j < |messages[1..]| && messages[1..][j].role == User && messages[1..][j].content == c
                   && forall i :: 0 <= i < j ==> messages[1..][i].role != User;
          assert forall i :: 1 <= i < j + 1 ==> messages[i] == messages[1..][i - 1];
        }
      }
      c
  }

  /** The index of the last user message before `end`, or -1 (`[...messages.slice(0, end)].reverse().find(...)`). */
  function LastUserBefore(messages: seq<Message>, end: nat): (k: int)
    requires end <= |messages|
    ensures -1 <= k < end
    ensures k >= 0 ==> messages[k].role == User && forall j :: k < j < end ==> messages[j].role != User
    ensures k == -1 ==> forall j :: 0 <= j < end ==> messages[j].role != User
  {
    if end == 0 then -1
    else if messages[end - 1].role == User then end - 1
    else LastUserBefore(messages, end - 1)
  }

  /**
   * `getLastUserPromptBefore(messageId)`: the nearest user message before the
   * given one; the first user message when the id is unknown, when no user
   * message precedes it, or when the nearest one is empty; '' when there is
   * no user message at all.
   */
  function GetLastUserPromptBefore(messages: seq<Message>, messageId: string): (prompt: string)
    ensures var index := IndexOfId(messages, messageId);
      var prior := if index == -1 then -1 else LastUserBefore(messages, index);
      && (prior >= 0 && messages[prior].content != "" ==> prompt == messages[prior].content)
      && (prior == -1 || messages[prior].content == "" ==> prompt == FirstUserContent(messages))
  {
    var index := IndexOfId(messages, messageId);
    if index == -1 then FirstUserContent(messages)
    else
      var prior := LastUserBefore(messages, index);
      if prior >= 0 && messages[prior].content != "" then messages[prior].content
      else FirstUserContent(messages)
  }

  /** Without user messages there is no prompt; otherwise the prompt is some user message's text. */
  lemma LastUserPromptIsUserText(messages: seq<Message>, messageId: string)
    ensures var prompt := GetLastUserPromptBefore(messages, messageId);
      && ((forall j :: 0 <= j < |messages| ==> messages[j].role != User) ==> prompt == "")
      && (prompt != "" ==> exists j :: 0 <= j < |messages| && messages[j].role == User && messages[j].content == prompt)
  {
    var index := IndexOfId(messages, messageId);
    if index >= 0 {
      var prior := LastUserBefore(messages, index);
      if prior >= 0 && messages[prior].content != "" {
        assert messages[prior].role == User;
      }
    }
  }

  // ---------------------------------------------------------------------------
  // Saved conversations (ChatInterface.tsx:86-105, 128-139)

  const MaxConversations := 50

  /** `prev.filter(conv => conv.id !== id)`. */
  function WithoutId(convs: seq<SavedConversation>, id: string): (r: seq<SavedConversation>)
    ensures |r| <= |convs|
    ensures forall i :: 0 <= i < |r| ==> r[i].id != id
    ensures forall c :: c in r <==> c in convs && c.id != id
  {
    if convs == [] then []
    else (if convs[0].id != id then [convs[0]] else []) + WithoutId(convs[1..], id)
  }

  /** The first 50 characters of the first message and `...`. */
  function ConversationTitle(messages: seq<Message>): (title: string)
    requires messages != []
    ensures |title| <= 53 && EndsWith(title, "...")
  {
    var c := messages[0].content;
    var head := if |c| <= 50 then c else c[..50];
    head + "..."
  }

  /** `[conversation, ...filtered].slice(0, 50)`. */
  function SavedList(prev: seq<SavedConversation>, conversation: SavedConversation): (updated: seq<SavedConversation>)
    ensures updated != [] && updated[0] == conversation
    ensures |updated| <= MaxConversations
    ensures forall i :: 1 <= i < |updated| ==> updated[i].id != conversation.id && updated[i] in prev
  {
    var all := [conversation] + WithoutId(prev, conversation.id);
    var updated := if |all| <= MaxConversations then all else all[..MaxConversations];
    assert forall i :: 1 <= i < |updated| ==> updated[i] == WithoutId(prev, conversation.id)[i - 1];
    updated
  }

  /** A conversation not yet saved goes in front of all the others while fewer than 50 are saved. */
  lemma SavedListFresh(prev: seq<SavedConversation>, conversation: SavedConversation)
    requires |prev| < MaxConversations
    requires forall i :: 0 <= i < |prev| ==> prev[i].id != conversation.id
    ensures SavedList(prev, conversation) == [conversation] + prev
  {
    WithoutIdKeepsAll(prev, conversation.id);
  }

  lemma {:induction false} WithoutIdKeepsAll(convs: seq<SavedConversation>, id: string)
    requires forall i :: 0 <= i < |convs| ==> convs[i].id != id
    ensures WithoutId(convs, id) == convs
  {
    if convs != [] {
      WithoutIdKeepsAll(convs[1..], id);
    }
  }

  /** The conversation panel's state: the open messages, the saved list and the open conversation's id. */
  class ChatState {
    var messages: seq<Message>
    var savedConversations: seq<SavedConversation>
    var currentConversationId: Option<string>

    constructor (saved: seq<SavedConversation>)
      ensures messages == [] && savedConversations == saved && currentConversationId == None
    {
      messages := [];
      savedConversations := saved;
      currentConversationId := None;
    }

    /** `currentConversationId || \`conv-${Date.now()}\``. */
    function ConversationId(now: int): string
      reads this
    {
      if currentConversationId.Some? && currentConversationId.value != "" then currentConversationId.value
      else "conv-" + IntText(now)
    }

    /**
     * `saveCurrentConversation()`: nothing without messages; otherwise the
     * open conversation goes to the front of the saved list, replacing any
     * entry with its id, the list is cut to 50, and a new conversation gets
     * its id.
     */
    method SaveCurrentConversation(now: int, isoNow: string)
      modifies this
      ensures messages == old(messages)
      ensures old(messages) == [] ==>
        savedConversations == old(savedConversations) && currentConversationId == old(currentConversationId)
      ensures old(messages) != [] ==>
        var id := old(ConversationId(now));
        var first := old(messages)[0];
        && savedConversations == SavedList(old(savedConversations),
             SavedConversation(id, ConversationTitle(old(messages)), old(messages),
                               if first.timestamp != "" then first.timestamp else isoNow, isoNow))
        && currentConversationId == Some(id)
    {
      if |messages| == 0 {
        return;
      }
      var conversationId := ConversationId(now);
      var title := ConversationTitle(messages);
      var conversation := SavedConversation(conversationId, title, messages,
                                            if messages[0].timestamp != "" then messages[0].timestamp else isoNow, isoNow);
      savedConversations := SavedList(savedConversations, conversation);
      if currentConversationId.None? || currentConversationId.value == "" {
        currentConversationId := Some(conversationId);
      }
    }

    /**
     * `deleteConversation(conversationId)`: every saved entry with the id is
     * removed; the open messages and id are cleared only when that
     * conversation is the open one.
     */
    method DeleteConversation(conversationId: string)
      modifies this
      ensures savedConversations == WithoutId(old(savedConversations), conversationId)
      ensures old(currentConversationId) == Some(conversationId) ==> currentConversationId == None && messages == []
      ensures old(currentConversationId) != Some(conversationId) ==>
                currentConversationId == old(currentConversationId) && messages == old(messages)
    {
      savedConversations := WithoutId(savedConversations, conversationId);
      if currentConversationId == Some(conversationId) {
        currentConversationId := None;
        messages := [];
      }
    }
  }

  // ---------------------------------------------------------------------------
  // applySurgicalModifications (ChatInterface.tsx:423-512)

  const NotAFunction := "is not a function"

  /** `v.k1.k2…`, each step throwing on `null` or `undefined`. */
  function ReadChain(v: Value, path: seq<string>): (r: Result<Value, Thrown>)
    ensures |path| == 1 ==> r == Read(v, path[0])
    decreases |path|
  {
    if path == [] then Ok(v)
    else match Read(v, path[0])
      case Err(e) => Err(e)
      case Ok(w) => ReadChain(w, path[1..])
  }

  /** `node.data?.type === kind` for a node that is neither `null` nor `undefined`. */
  predicate DataKindIs(node: Value, kind: string) {
    StrictEq(OptGet(OptGet(node, "data"), "type"), Str(kind))
  }

  /** `node.data?.inputs?.[key]`. */
  function NodeInput(node: Value, key: string): Value {
    OptGet(OptGet(OptGet(node, "data"), "inputs"), key)
  }

  /** `node.data?.inputs && node.data.inputs[key]` is truthy. */
  predicate HasTruthyInput(node: Value, key: string) {
    Truthy(NodeInput(node, key))
  }

  /** A node object whose `data` and `data.inputs` are objects. */
  predicate Shaped(node: Value) {
    node.Obj? && OptGet(node, "data").Obj? && OptGet(OptGet(node, "data"), "inputs").Obj?
  }

  /** A browser launch: of that kind, or holding a `Website Url`. */
  predicate BrowserLike(node: Value) {
    DataKindIs(node, LaunchBrowser) || HasTruthyInput(node, "Website Url")
  }

  /** A webhook: of kind `WEBHOOK`, or holding a `URL` or a `Webhook URL`. */
  predicate WebhookLike(node: Value) {
    DataKindIs(node, "WEBHOOK") || HasTruthyInput(node, "URL") || HasTruthyInput(node, "Webhook URL")
  }

  /**
   * `nodes.find(test)` where the test reads `node.data` first: the index of
   * the first match, none, or the exception of a `null` or `undefined` node
   * met before any match.
   */
  function FindNode(nodes: seq<Value>, test: Value -> bool, from: nat): (r: Result<Option<nat>, Thrown>)
    requires from <= |nodes|
    ensures r.Ok? && r.value.Some? ==>
      var k := r.value.value;
      && from <= k < |nodes| && !Nullish(nodes[k]) && test(nodes[k])
      && forall j :: from <= j < k ==> !Nullish(nodes[j]) && !test(nodes[j])
    ensures r == Ok(None) ==> forall j :: from <= j < |nodes| ==> !Nullish(nodes[j]) && !test(nodes[j])
    ensures r.Err? ==> exists k :: from <= k < |nodes| && Nullish(nodes[k])
                                   && forall j :: from <= j < k ==> !test(nodes[j])
    decreases |nodes| - from
  {
    if from == |nodes| then Ok(None)
    else if Nullish(nodes[from]) then Err(ReadError(nodes[from], "data"))
    else if test(nodes[from]) then Ok(Some(from))
    else FindNode(nodes, test, from + 1)
  }

  /** `{...node, data: {...node.data, inputs: {...node.data.inputs, [key]: value}}}`. */
  function WithInput(node: Value, key: string, value: Value): Value {
    var data := OptGet(node, "data");
    var inputs := OptGet(data, "inputs");
    Obj(Assign(OwnFields(node), "data", Obj(Assign(OwnFields(data), "inputs", Obj(Assign(OwnFields(inputs), key, value))))))
  }

  /** The patched node reads `value` under `key`, and every other input, data field and node field as before. */
  lemma WithInputReads(node: Value, key: string, value: Value, k: string)
    requires Shaped(node)
    ensures var r := WithInput(node, key, value);
      && Shaped(r)
      && NodeInput(r, k) == (if k == key then value else NodeInput(node, k))
      && (k != "inputs" ==> OptGet(OptGet(r, "data"), k) == OptGet(OptGet(node, "data"), k))
      && (k != "data" ==> OptGet(r, k) == OptGet(node, k))
  {
    var data := OptGet(node, "data");
    var inputs := OptGet(data, "inputs");
    var newInputs := Obj(Assign(OwnFields(inputs), key, value));
    var newData := Obj(Assign(OwnFields(data), "inputs", newInputs));
    AssignLookup(OwnFields(node), "data", newData, "data");
    AssignLookup(OwnFields(node), "data", newData, k);
    AssignLookup(OwnFields(data), "inputs", newInputs, "inputs");
    AssignLookup(OwnFields(data), "inputs", newInputs, k);
    AssignLookup(OwnFields(inputs), key, value, k);
  }

  /** `inputs['URL'] ? 'URL' : 'Webhook URL'` for the node's inputs, which throws when the node has no `data` or `inputs`. */
  function UrlKey(node: Value): Result<string, Thrown> {
    match ReadChain(node, ["data", "inputs", "URL"])
    case Err(e) => Err(e)
    case Ok(u) => Ok(if Truthy(u) then "URL" else "Webhook URL")
  }

  /** The mapping of one new node when the originals' URLs are preserved. */
  function KeepOriginalUrls(node: Value, browser: Option<Value>, webhook: Option<Value>): (r: Result<Value, Thrown>)
    ensures Nullish(node) ==> r.Err?
    ensures !Nullish(node) && !(BrowserLike(node) && browser.Some?) && !(WebhookLike(node) && webhook.Some?) ==>
              r == Ok(node)
  {
    if Nullish(node) then Err(ReadError(node, "data"))
    else if BrowserLike(node) && browser.Some? then
      match ReadChain(browser.value, ["data", "inputs", "Website Url"])
      case Err(e) => Err(e)
      case Ok(url) => Ok(WithInput(node, "Website Url", url))
    else if WebhookLike(node) && webhook.Some? then
      match UrlKey(node)
      case Err(e) => Err(e)
      case Ok(key) =>
        match UrlKey(webhook.value)
        case Err(e) => Err(e)
        case Ok(originalKey) =>
          match ReadChain(webhook.value, ["data", "inputs", originalKey])
          case Err(e) => Err(e)
          case Ok(url) => Ok(WithInput(node, key, url))
    else Ok(node)
  }

  /** `userMessage && (lower.includes('modify') || lower.includes('add'))`. */
  predicate AsksToModify(userMessage: Option<string>) {
    userMessage.Some?
    && (Contains(LowerAscii(userMessage.value), "modify") || Contains(LowerAscii(userMessage.value), "add"))
  }

  /**
   * The original browser and webhook nodes: the first existing node of each
   * kind, if any; throws when the existing workflow has no node array or a
   * `null` node comes first.
   */
  function Originals(existing: Value): (r: Result<(Option<Value>, Option<Value>), Thrown>)
    ensures r.Ok? ==> !Nullish(existing) && Get(existing, "nodes").Arr?
    ensures r.Ok? && r.value.0.Some? ==> BrowserLike(r.value.0.value) && r.value.0.value in Get(existing, "nodes").items
    ensures r.Ok? && r.value.1.Some? ==> WebhookLike(r.value.1.value) && r.value.1.value in Get(existing, "nodes").items
  {
    match Read(existing, "nodes")
    case Err(e) => Err(e)
    case Ok(prior) =>
      if !prior.Arr? then Err(Thrown(NotAFunction))
      else match FindNode(prior.items, BrowserLike, 0)
        case Err(e) => Err(e)
        case Ok(b) =>
          match FindNode(prior.items, WebhookLike, 0)
          case Err(e) => Err(e)
          case Ok(h) =>
            Ok((if b.Some? then Some(prior.items[b.value]) else None,
                if h.Some? then Some(prior.items[h.value]) else None))
  }

  /** The branch for a reply of several nodes that asks to modify: its nodes with the original URLs kept. */
  function KeepUrls(existing: Value, newWorkflow: Value, newNodes: seq<Value>): (r: Result<Value, Thrown>)
    requires newWorkflow.Obj?
    ensures r.Ok? <==> (Originals(existing).Ok?
      && forall k :: 0 <= k < |newNodes| ==>
           KeepOriginalUrls(newNodes[k], Originals(existing).value.0, Originals(existing).value.1).Ok?)
    ensures r.Ok? ==> var originals := Originals(existing).value;
      && r.value.Obj? && Get(r.value, "nodes").Arr?
      && |Get(r.value, "nodes").items| == |newNodes|
      && (forall k :: 0 <= k < |newNodes| ==>
            KeepOriginalUrls(newNodes[k], originals.0, originals.1) == Ok(Get(r.value, "nodes").items[k]))
      && forall key :: key != "nodes" ==> Get(r.value, key) == Get(newWorkflow, key)
  {
    match Originals(existing)
    case Err(e) => Err(e)
    case Ok(originals) =>
      match MapAll(newNodes, 0, (n, i) => KeepOriginalUrls(n, originals.0, originals.1))
      case Err(e) => Err(e)
      case Ok(updated) =>
        AssignLookup(newWorkflow.fields, "nodes", Arr(updated), "nodes");
        AssignOthers(newWorkflow.fields, "nodes", Arr(updated));
        Ok(Obj(Assign(newWorkflow.fields, "nodes", Arr(updated))))
  }

  /** `typeof v === 'object'` for a truthy value. */
  predicate IsObjectLike(v: Value) {
    v.Obj? || v.Arr?
  }

  /** Some key of `a` is a key of `b`. */
  predicate SharesKey(a: seq<string>, b: seq<string>) {
    exists i :: 0 <= i < |a| && a[i] in b
  }

  /** The test picking the existing nodes the single new node updates. */
  predicate Matches(node: Value, newNode: Value)
    requires !Nullish(node) && !Nullish(newNode)
  {
    var data := Get(node, "data");
    var newData := Get(newNode, "data");
    StrictEq(Get(node, "type"), Get(newNode, "type"))
    || (Truthy(data) && Truthy(newData) && IsObjectLike(data) && IsObjectLike(newData)
        && SharesKey(Keys(OwnFields(data)), Keys(OwnFields(newData))))
  }

  /** `{...node, data: {...node.data, ...newNode.data}}`. */
  function Merged(node: Value, newNode: Value): Value {
    Obj(Assign(OwnFields(node), "data", Obj(Spread(OwnFields(OptGet(node, "data")), OwnFields(OptGet(newNode, "data"))))))
  }

  /** The mapping of one existing node; reading `node.type` or `newNode.type` throws on `null` or `undefined`. */
  function MergeIfMatching(node: Value, newNode: Value): (r: Result<Value, Thrown>)
    ensures r.Err? <==> Nullish(node) || Nullish(newNode)
    ensures r.Ok? ==> r.value == if Matches(node, newNode) then Merged(node, newNode) else node
  {
    if Nullish(node) then Err(ReadError(node, "type"))
    else if Nullish(newNode) then Err(ReadError(newNode, "type"))
    else if Matches(node, newNode) then Ok(Merged(node, newNode))
    else Ok(node)
  }

  /** The branch for a reply of one node: the existing nodes, each merged with it when they match. */
  function MergeOne(existing: Value, newWorkflow: Value, newNode: Value): (r: Result<Value, Thrown>)
    requires newWorkflow.Obj?
    ensures r.Ok? <==> (!Nullish(existing) && Get(existing, "nodes").Arr?
      && forall k :: 0 <= k < |Get(existing, "nodes").items| ==> MergeIfMatching(Get(existing, "nodes").items[k], newNode).Ok?)
    ensures r.Ok? ==> var prior := Get(existing, "nodes").items;
      && r.value.Obj? && Get(r.value, "nodes").Arr?
      && |Get(r.value, "nodes").items| == |prior|
      && forall k :: 0 <= k < |prior| ==> MergeIfMatching(prior[k], newNode) == Ok(Get(r.value, "nodes").items[k])
  {
    match Read(existing, "nodes")
    case Err(e) => Err(e)
    case Ok(prior) =>
      if !prior.Arr? then Err(Thrown(NotAFunction))
      else match MapAll(prior.items, 0, (n, i) => MergeIfMatching(n, newNode))
        case Err(e) => Err(e)
        case Ok(updated) =>
          var fs := Assign(OwnFields(existing), "nodes", Arr(updated));
          AssignLookup(OwnFields(existing), "nodes", Arr(updated), "nodes");
          AssignLookup(fs, "edges", Or(Get(newWorkflow, "edges"), Get(existing, "edges")), "nodes");
          Ok(Obj(Assign(fs, "edges", Or(Get(newWorkflow, "edges"), Get(existing, "edges")))))
  }

  /** The `try` block: its result or the exception it throws. */
  function SurgicalTry(existing: Value, newWorkflow: Value, userMessage: Option<string>): (r: Result<Value, Thrown>)
    ensures Nullish(newWorkflow) ==> r.Err?
    ensures (!Nullish(newWorkflow)
      && !(newWorkflow.Obj? && Get(newWorkflow, "nodes").Arr? && |Get(newWorkflow, "nodes").items| >= 1))
      ==> r == Ok(Or(newWorkflow, existing))
    ensures (newWorkflow.Obj? && Get(newWorkflow, "nodes").Arr? && |Get(newWorkflow, "nodes").items| > 1
      && !AsksToModify(userMessage)) ==> r == Ok(newWorkflow)
  {
    match Read(newWorkflow, "nodes")
    case Err(e) => Err(e)
    case Ok(nodes) =>
      if nodes.Arr? && |nodes.items| > 1 && newWorkflow.Obj? then
        if AsksToModify(userMessage) then KeepUrls(existing, newWorkflow, nodes.items) else Ok(newWorkflow)
      else if nodes.Arr? && |nodes.items| == 1 && newWorkflow.Obj? then MergeOne(existing, newWorkflow, nodes.items[0])
      else Ok(Or(newWorkflow, existing))
  }

  /**
   * `applySurgicalModifications(existingWorkflow, newWorkflow, userMessage)`:
   * the `try` block's result, or `newWorkflow || existingWorkflow` when it
   * throws.
   */
  function ApplySurgicalModifications(existing: Value, newWorkflow: Value, userMessage: Option<string>): (r: Value)
    ensures SurgicalTry(existing, newWorkflow, userMessage).Err? ==> r == Or(newWorkflow, existing)
    ensures SurgicalTry(existing, newWorkflow, userMessage).Ok? ==> r == SurgicalTry(existing, newWorkflow, userMessage).value
  {
    match SurgicalTry(existing, newWorkflow, userMessage)
    case Ok(v) => v
    case Err(_) => Or(newWorkflow, existing)
  }

  /**
   * A browser-like new node, when an original browser node exists, takes the
   * original's `Website Url` (reading it throws when the original has no
   * inputs) and keeps every other input.
   */
  lemma BrowserTakesOriginalUrl(node: Value, original: Value, webhook: Option<Value>, k: string)
    requires Shaped(node) && BrowserLike(node)
    ensures var r := KeepOriginalUrls(node, Some(original), webhook);
      var url := ReadChain(original, ["data", "inputs", "Website Url"]);
      && (r.Ok? <==> url.Ok?)
      && (r.Ok? ==> NodeInput(r.value, "Website Url") == url.value
                    && (k != "Website Url" ==> NodeInput(r.value, k) == NodeInput(node, k)))
  {
    var url := ReadChain(original, ["data", "inputs", "Website Url"]);
    if url.Ok? {
      WithInputReads(node, "Website Url", url.value, "Website Url");
      WithInputReads(node, "Website Url", url.value, k);
    }
  }

  /**
   * A webhook-like new node that is not browser-like, when an original
   * webhook exists, takes the original's endpoint under its own URL key
   * (`URL` when it holds a truthy one, else `Webhook URL`).
   */
  lemma WebhookTakesOriginalUrl(node: Value, browser: Option<Value>, original: Value)
    requires Shaped(node) && WebhookLike(node) && !(BrowserLike(node) && browser.Some?)
    ensures var r := KeepOriginalUrls(node, browser, Some(original));
      var key := if Truthy(NodeInput(node, "URL")) then "URL" else "Webhook URL";
      r.Ok? ==> UrlKey(original).Ok?
                && ReadChain(original, ["data", "inputs", UrlKey(original).value]).Ok?
                && NodeInput(r.value, key) == ReadChain(original, ["data", "inputs", UrlKey(original).value]).value
  {
    var r := KeepOriginalUrls(node, browser, Some(original));
    if r.Ok? {
      var key := if Truthy(NodeInput(node, "URL")) then "URL" else "Webhook URL";
      var url := ReadChain(original, ["data", "inputs", UrlKey(original).value]);
      assert UrlKey(node) == Ok(key);
      WithInputReads(node, key, url.value, key);
    }
  }

  /**
   * A reply of several nodes without a request to modify or add is taken as
   * is.
   */
  lemma SeveralNodesReplace(existing: Value, newWorkflow: Value, userMessage: Option<string>)
    requires newWorkflow.Obj? && Get(newWorkflow, "nodes").Arr? && |Get(newWorkflow, "nodes").items| > 1
    requires !AsksToModify(userMessage)
    ensures ApplySurgicalModifications(existing, newWorkflow, userMessage) == newWorkflow
  {
  }

  /**
   * A reply of several nodes with a request to modify or add keeps its node
   * count; each node is mapped by `KeepOriginalUrls` against the first
   * original browser and webhook nodes, and nodes of neither kind are kept
   * as they are. When anything throws, the reply is taken as is.
   */
  lemma SeveralNodesKeepUrls(existing: Value, newWorkflow: Value, userMessage: Option<string>)
    requires newWorkflow.Obj? && Get(newWorkflow, "nodes").Arr? && |Get(newWorkflow, "nodes").items| > 1
    requires AsksToModify(userMessage)
    ensures var r := ApplySurgicalModifications(existing, newWorkflow, userMessage);
      var nodes := Get(newWorkflow, "nodes").items;
      && (KeepUrls(existing, newWorkflow, nodes).Err? ==> r == newWorkflow)
      && (KeepUrls(existing, newWorkflow, nodes).Ok? ==>
            var originals := Originals(existing).value;
            && r.Obj? && Get(r, "nodes").Arr?
            && |Get(r, "nodes").items| == |nodes|
            && (forall i :: 0 <= i < |nodes| ==>
                  KeepOriginalUrls(nodes[i], originals.0, originals.1) == Ok(Get(r, "nodes").items[i]))
            && (forall i :: 0 <= i < |nodes| && !BrowserLike(nodes[i]) && !WebhookLike(nodes[i]) ==>
                  Get(r, "nodes").items[i] == nodes[i]))
  {
    var nodes := Get(newWorkflow, "nodes").items;
    if KeepUrls(existing, newWorkflow, nodes).Ok? {
      var originals := Originals(existing).value;
      var updated := MapAll(nodes, 0, (n, i) => KeepOriginalUrls(n, originals.0, originals.1)).value;
      AssignLookup(newWorkflow.fields, "nodes", Arr(updated), "nodes");
    }
  }

  /**
   * A reply of one node keeps the existing nodes' count and order, merging
   * the reply's data into each existing node it matches; the edges become
   * the reply's when truthy, else the existing ones; other fields of the
   * existing workflow are kept. When anything throws, the reply is taken as
   * is.
   */
  lemma OneNodeMerges(existing: Value, newWorkflow: Value, userMessage: Option<string>)
    requires newWorkflow.Obj? && Get(newWorkflow, "nodes").Arr? && |Get(newWorkflow, "nodes").items| == 1
    ensures var r := ApplySurgicalModifications(existing, newWorkflow, userMessage);
      var newNode := Get(newWorkflow, "nodes").items[0];
      && (MergeOne(existing, newWorkflow, newNode).Err? ==> r == newWorkflow)
      && (MergeOne(existing, newWorkflow, newNode).Ok? ==>
            && !Nullish(existing) && Get(existing, "nodes").Arr?
            && var prior := Get(existing, "nodes").items;
            && r.Obj? && Get(r, "nodes").Arr?
            && |Get(r, "nodes").items| == |prior|
            && (prior != [] ==> !Nullish(newNode))
            && (forall i :: 0 <= i < |prior| ==>
                  !Nullish(prior[i])
                  && Get(r, "nodes").items[i] == if Matches(prior[i], newNode) then Merged(prior[i], newNode) else prior[i])
            && Get(r, "edges") == Or(Get(newWorkflow, "edges"), Get(existing, "edges"))
            && (forall k :: k != "nodes" && k != "edges" ==> Get(r, k) == Lookup(OwnFields(existing), k)))
  {
    var newNode := Get(newWorkflow, "nodes").items[0];
    if MergeOne(existing, newWorkflow, newNode).Ok? {
      var prior := Get(existing, "nodes").items;
      var updated := MapAll(prior, 0, (n, i) => MergeIfMatching(n, newNode)).value;
      var fs := Assign(OwnFields(existing), "nodes", Arr(updated));
      var edges := Or(Get(newWorkflow, "edges"), Get(existing, "edges"));
      AssignLookup(fs, "edges", edges, "nodes");
      AssignLookup(OwnFields(existing), "nodes", Arr(updated), "nodes");
      AssignLookup(fs, "edges", edges, "edges");
      forall k | k != "nodes" && k != "edges" ensures Lookup(Assign(fs, "edges", edges), k) == Lookup(OwnFields(existing), k) {
        AssignLookup(fs, "edges", edges, k);
        AssignLookup(OwnFields(existing), "nodes", Arr(updated), k);
      }
      if |prior| > 0 {
        assert MergeIfMatching(prior[0], newNode).Ok?;
      }
    }
  }

  /**
   * A merged node's data reads the reply node's value for every key the
   * reply's data has, the node's own value otherwise; its other fields are
   * unchanged.
   */
  lemma MergedReads(node: Value, newNode: Value, k: string)
    requires UniqueKeys(OwnFields(OptGet(newNode, "data")))
    ensures var newData := OwnFields(OptGet(newNode, "data"));
      && OptGet(OptGet(Merged(node, newNode), "data"), k)
           == (if HasKey(newData, k) then Lookup(newData, k) else Lookup(OwnFields(OptGet(node, "data")), k))
      && (k != "data" ==> OptGet(Merged(node, newNode), k) == Lookup(OwnFields(node), k))
  {
    var data := Obj(Spread(OwnFields(OptGet(node, "data")), OwnFields(OptGet(newNode, "data"))));
    AssignLookup(OwnFields(node), "data", data, "data");
    AssignLookup(OwnFields(node), "data", data, k);
    SpreadLookup(OwnFields(OptGet(node, "data")), OwnFields(OptGet(newNode, "data")), k);
  }
}
