/**
 * `ExtractDataWithAiExecutor` (lib/workflow/executor/ExtractDataWithAiExecutor.ts):
 * checks its three inputs, unwraps a JSON envelope around the page HTML,
 * cleans and whitespace-normalises the HTML, cuts it to the model's
 * character budget, resolves and decrypts the API key, asks the model, and
 * publishes the reply text unchanged as "Extracted Data".
 *
 * `JSON.parse`, the cheerio document cleaning, the credential lookup,
 * `symmetricDecrypt` and the chat-completion call are oracles; each may throw,
 * and a throw is caught by the executor, logged and turned into `false`.
 */
module Extract {
  import opened Wrappers
  import opened Text
  import opened Js
  import opened Env
  import opened Repair

  /** What the model returns: the message text (`""` when absent) and the JSON rendering of its token counts. */
  datatype Reply = Reply(content: string, promptTokens: string, completionTokens: string)

  datatype ExtractOracles = ExtractOracles(
    decode: string -> Result<Value, Thrown>,
    cleanDom: Value -> Result<string, Thrown>,
    findCredential: string -> Result<Option<string>, Thrown>,
    decrypt: string -> Result<string, Thrown>,
    complete: (string, string, string) -> Result<Reply, Thrown>)

  const MaxChars := 6000000

  const OutputName := "Extracted Data"
  const NoCredentials := "input -> credentials is not defined"
  const NoContent := "input -> content is not defined"
  const NoPrompt := "input -> prompt is not defined"
  const CredentialMissing := "Credential no found"
  const CannotDecrypt := "Cannot decrypt credential"
  const EmptyReply := "Empty response from AI"

  /**
   * The instruction sent as the system message: the reply must be only the
   * extracted data as JSON, an empty array when nothing is found.
   */
  const SystemInstruction := "You are a webscraper helper that extracts data from HTML or text. You will be given a piece of text or HTML content as input and also the prompt with the data you have to extract. The response should always be only the extracted data as a JSON array or object, without any additional words or explanations. Analyze the input carefully and extract data precisely based on the prompt. If no data is found, return an empty JSON array. Work only with the provided content and ensure the output is always a valid JSON array without any surrounding text"

  // ---------------------------------------------------------------------------
  // Envelope unwrapping (ExtractDataWithAiExecutor.ts:28-54)

  /** The trimmed content starts like a JSON object or array. */
  predicate LooksLikeJson(content: string) {
    StartsWith(Trim(content), "{") || StartsWith(Trim(content), "[")
  }

  /** `p.html || ''`, which throws on a `null` or `undefined` page. */
  function PageHtml(p: Value): Result<Value, Thrown> {
    match Read(p, "html")
    case Err(e) => Err(e)
    case Ok(h) => Ok(Or(h, Str("")))
  }

  /** `pages.map(p => p.html || '')`, each entry as `join` renders it. */
  function PagesHtml(pages: seq<Value>): (r: Result<seq<string>, Thrown>)
    ensures r.Ok? ==> |r.value| == |pages|
    ensures r.Ok? <==> forall i :: 0 <= i < |pages| ==> !Nullish(pages[i])
  {
    if pages == [] then Ok([])
    else
      match PageHtml(pages[0])
      case Err(e) => Err(e)
      case Ok(h) =>
        match PagesHtml(pages[1..])
        case Err(e) =>
          assert exists k :: 0 <= k < |pages| && Nullish(pages[k]) by {
            var k :| 0 <= k < |pages[1..]| && Nullish(pages[1..][k]);
            assert pages[k + 1] == pages[1..][k];
          }
          Err(e)
        case Ok(rest) =>
          assert forall i :: 1 <= i < |pages| ==> pages[i] == pages[1..][i - 1];
          Ok([ElementText(h)] + rest)
  }

  /** The HTML to clean and the info line that reports which envelope field it came from. */
  datatype Unwrapped = Unwrapped(html: Value, notes: seq<LogLine>)

  /**
   * The content, or the field of its JSON envelope that holds the HTML:
   * `combinedHTML`, else `html`, else the `pages` joined by blank lines. A
   * failed decode, or a page that is `null`, leaves the content as it is.
   */
  function UnwrapEnvelope(content: string, decode: string -> Result<Value, Thrown>): (u: Unwrapped)
    ensures !LooksLikeJson(content) || decode(content).Err? ==> u == Unwrapped(Str(content), [])
    ensures |u.notes| <= 1
    ensures u.html != Str(content) ==> |u.notes| == 1
    ensures forall i :: 0 <= i < |u.notes| ==> u.notes[i].level == Info
  {
    if !LooksLikeJson(content) then Unwrapped(Str(content), [])
    else
      match decode(content)
      case Err(_) => Unwrapped(Str(content), [])
      case Ok(j) =>
        if Nullish(j) then Unwrapped(Str(content), [])
        else if Truthy(Get(j, "combinedHTML")) then
          Unwrapped(Get(j, "combinedHTML"), [LogLine(Info, "📄 Detected JSON input, extracting 'combinedHTML'")])
        else if Truthy(Get(j, "html")) then
          Unwrapped(Get(j, "html"), [LogLine(Info, "📄 Detected JSON input, extracting 'html'")])
        else if Get(j, "pages").Arr? then
          var pages := Get(j, "pages").items;
          match PagesHtml(pages)
          case Err(_) => Unwrapped(Str(content), [])
          case Ok(hs) =>
            Unwrapped(Str(Join(hs, "\n\n")),
                      [LogLine(Info, "📄 Detected JSON input, combining HTML from " + NatText(|pages|) + " pages")])
        else Unwrapped(Str(content), [])
  }

  /** The envelope fields in order of precedence: `combinedHTML`, then `html`, then `pages`. */
  lemma EnvelopePrecedence(content: string, decode: string -> Result<Value, Thrown>)
    requires LooksLikeJson(content) && decode(content).Ok? && !Nullish(decode(content).value)
    ensures var j := decode(content).value;
      var u := UnwrapEnvelope(content, decode);
      && (Truthy(Get(j, "combinedHTML")) ==> u.html == Get(j, "combinedHTML"))
      && (!Truthy(Get(j, "combinedHTML")) && Truthy(Get(j, "html")) ==> u.html == Get(j, "html"))
      && (!Truthy(Get(j, "combinedHTML")) && !Truthy(Get(j, "html")) && Get(j, "pages").Arr?
            && PagesHtml(Get(j, "pages").items).Ok? ==>
            u.html == Str(Join(PagesHtml(Get(j, "pages").items).value, "\n\n")))
      && (!Truthy(Get(j, "combinedHTML")) && !Truthy(Get(j, "html")) && !Get(j, "pages").Arr? ==>
            u == Unwrapped(Str(content), []))
  {
  }

  /** A page whose `html` is a non-empty string contributes exactly that string; any other page contributes nothing. */
  lemma {:induction false} PagesHtmlAt(pages: seq<Value>, i: nat)
    requires PagesHtml(pages).Ok? && i < |pages|
    ensures var h := Get(pages[i], "html");
      PagesHtml(pages).value[i] == if Truthy(h) then ToText(h) else ""
  {
    if i > 0 {
      PagesHtmlAt(pages[1..], i - 1);
    }
  }

  // ---------------------------------------------------------------------------
  // Whitespace normalisation (ExtractDataWithAiExecutor.ts:86-87)

  /** `s.replace(/\s+/g, ' ')`: every maximal run of whitespace becomes one space. */
  function CollapseSpaces(s: string): (r: string)
    ensures |r| <= |s|
    ensures (r == []) == (s == [])
    ensures s != [] ==> (IsSpace(r[0]) <==> IsSpace(s[0]))
    ensures forall i :: 0 <= i < |r| && IsSpace(r[i]) ==> r[i] == ' '
    ensures forall i :: 0 <= i < |r| - 1 ==> !(IsSpace(r[i]) && IsSpace(r[i + 1]))
    decreases |s|
  {
    if s == [] then []
    else if IsSpace(s[0]) then
      var n := LeadingSpaces(s);
      " " + CollapseSpaces(s[n..])
    else
      [s[0]] + CollapseSpaces(s[1..])
  }

  /** Collapsing keeps every non-whitespace character, in order. */
  lemma {:induction false} CollapseSpacesKeepsText(s: string)
    ensures Filter(CollapseSpaces(s), IsVisible) == Filter(s, IsVisible)
    decreases |s|
  {
    if s != [] {
      if IsSpace(s[0]) {
        CollapseSpacesKeepsText(s[LeadingSpaces(s)..]);
        SpaceRunKeepsText(s);
      } else {
        CollapseSpacesKeepsText(s[1..]);
        VisibleKeepsText(s);
      }
    }
  }

  /** A leading run of whitespace becomes one space, which holds no visible character. */
  lemma SpaceRunKeepsText(s: string)
    requires s != [] && IsSpace(s[0])
    requires Filter(CollapseSpaces(s[LeadingSpaces(s)..]), IsVisible) == Filter(s[LeadingSpaces(s)..], IsVisible)
    ensures Filter(CollapseSpaces(s), IsVisible) == Filter(s, IsVisible)
  {
    var n := LeadingSpaces(s);
    var rest := CollapseSpaces(s[n..]);
    assert CollapseSpaces(s) == " " + rest;
    DropSpaces(s, n);
    DropSpaces(" " + rest, 1);
    assert (" " + rest)[1..] == rest;
  }

  /** A leading visible character is copied. */
  lemma VisibleKeepsText(s: string)
    requires s != [] && !IsSpace(s[0])
    requires Filter(CollapseSpaces(s[1..]), IsVisible) == Filter(s[1..], IsVisible)
    ensures Filter(CollapseSpaces(s), IsVisible) == Filter(s, IsVisible)
  {
    assert s == [s[0]] + s[1..];
    FilterAppend([s[0]], s[1..], IsVisible);
    FilterAppend([s[0]], CollapseSpaces(s[1..]), IsVisible);
  }

  /** Text whose only whitespace is single spaces is left alone, so collapsing twice is collapsing once. */
  lemma {:induction false} CollapseSpacesFixed(t: string)
    requires forall i :: 0 <= i < |t| && IsSpace(t[i]) ==> t[i] == ' '
    requires forall i :: 0 <= i < |t| - 1 ==> !(IsSpace(t[i]) && IsSpace(t[i + 1]))
    ensures CollapseSpaces(t) == t
    decreases |t|
  {
    if t != [] {
      if IsSpace(t[0]) {
        assert |t| > 1 ==> !IsSpace(t[1]);
        assert LeadingSpaces(t) == 1;
        CollapseSpacesFixed(t[1..]);
      } else {
        CollapseSpacesFixed(t[1..]);
      }
    }
  }

  lemma CollapseSpacesIdempotent(s: string)
    ensures CollapseSpaces(CollapseSpaces(s)) == CollapseSpaces(s)
  {
    CollapseSpacesFixed(CollapseSpaces(s));
  }

  /** The cleaned body: whitespace runs collapsed to one space, then trimmed. */
  function Normalized(body: string): string {
    Trim(CollapseSpaces(body))
  }

  // ---------------------------------------------------------------------------
  // Truncation (ExtractDataWithAiExecutor.ts:89-94)

  function TooLargeMessage(n: nat): string {
    "⚠️ Content too large (" + NatText(n) + " chars), truncating to 6000000 chars to fit token limit"
  }

  /**
   * The text kept within the character budget, and the info line written
   * when it had to be cut: a prefix of the input, of the input's length up to
   * 6,000,000 characters, and a line exactly when the input was longer.
   */
  function Truncate(s: string): (r: (string, seq<LogLine>))
    ensures StartsWith(s, r.0)
    ensures |r.0| == if |s| > MaxChars then MaxChars else |s|
    ensures r.1 == if |s| > MaxChars then [LogLine(Info, TooLargeMessage(|s|))] else []
  {
    if |s| > MaxChars then (s[..MaxChars], [LogLine(Info, TooLargeMessage(|s|))]) else (s, [])
  }

  // ---------------------------------------------------------------------------
  // The executor

  /** The text prepared for the model, or the exception the DOM cleaning threw, with the info lines written meanwhile. */
  datatype Preparation = Preparation(text: Result<string, Thrown>, notes: seq<LogLine>)

  function Prepared(content: string, o: ExtractOracles): (p: Preparation)
    ensures forall i :: 0 <= i < |p.notes| ==> p.notes[i].level == Info
  {
    var u := UnwrapEnvelope(content, o.decode);
    match o.cleanDom(u.html)
    case Err(e) => Preparation(Err(e), u.notes)
    case Ok(body) => Shortened(u.notes, body)
  }

  /** The cleaned text, normalised and cut to size, after the lines `notes`. */
  function Shortened(notes: seq<LogLine>, body: string): (p: Preparation)
    requires forall i :: 0 <= i < |notes| ==> notes[i].level == Info
    ensures forall i :: 0 <= i < |p.notes| ==> p.notes[i].level == Info
  {
    var t := Truncate(Normalized(body));
    Preparation(Ok(t.0), notes + t.1)
  }

  /** The credential lookup, the decryption, the model call and the publication of its reply, with the lines they write. */
  function Delivered(credentialId: string, text: string, prompt: string, o: ExtractOracles): (r: Outcome)
    ensures r.ok <==> (
      var found := o.findCredential(credentialId);
      && found.Ok? && found.value.Some?
      && var key := o.decrypt(found.value.value);
      && key.Ok? && key.value != ""
      && var reply := o.complete(key.value, text, prompt);
      && reply.Ok? && reply.value.content != "")
    ensures r.ok ==>
      r.outputs == map[OutputName := o.complete(o.decrypt(o.findCredential(credentialId).value.value).value, text, prompt).value.content]
  {
    match o.findCredential(credentialId)
    case Err(e) => Failed([], e.message)
    case Ok(None) => Failed([], CredentialMissing)
    case Ok(Some(secret)) =>
      match o.decrypt(secret)
      case Err(e) => Failed([], e.message)
      case Ok(key) =>
        if key == "" then Failed([], CannotDecrypt)
        else
          match o.complete(key, text, prompt)
          case Err(e) => Failed([], e.message)
          case Ok(reply) =>
            var logs' := [ LogLine(Info, "Prompt tokens used: " + reply.promptTokens),
                                  LogLine(Info, "Completition tokens used: " + reply.completionTokens) ];
            if reply.content == "" then Failed(logs', EmptyReply)
            else Outcome(true, logs', map[OutputName := reply.content])
  }

  /** The whole run on the given inputs. */
  function Extraction(inputs: map<string, string>, o: ExtractOracles): (r: Outcome)
    ensures r.ok ==> InputOf(inputs, "Credentials") != "" && InputOf(inputs, "Content") != "" && InputOf(inputs, "Prompt") != ""
  {
    var credentialId := InputOf(inputs, "Credentials");
    var content := InputOf(inputs, "Content");
    var prompt := InputOf(inputs, "Prompt");
    if credentialId == "" then Failed([], NoCredentials)
    else if content == "" then Failed([], NoContent)
    else if prompt == "" then Failed([], NoPrompt)
    else Checked(credentialId, content, prompt, o)
  }

  /** The run once all three inputs are present. */
  function Checked(credentialId: string, content: string, prompt: string, o: ExtractOracles): (r: Outcome)
    ensures var p := Prepared(content, o);
      && |p.notes| <= |r.logs| && r.logs[..|p.notes|] == p.notes
      && (r.ok <==> p.text.Ok? && Delivered(credentialId, p.text.value, prompt, o).ok)
  {
    var p := Prepared(content, o);
    match p.text
    case Err(e) => Failed(p.notes, e.message)
    case Ok(text) =>
      var r := Delivered(credentialId, text, prompt, o);
      Outcome(r.ok, p.notes + r.logs, r.outputs)
  }

  /**
   * The inputs are checked in the order Credentials, Content, Prompt; the
   * first one missing gives `false`, its error line alone, and no output.
   */
  lemma InputsCheckedInOrder(inputs: map<string, string>, o: ExtractOracles)
    ensures InputOf(inputs, "Credentials") == "" ==> Extraction(inputs, o) == Outcome(false, [LogLine(Error, NoCredentials)], map[])
    ensures InputOf(inputs, "Credentials") != "" && InputOf(inputs, "Content") == "" ==>
              Extraction(inputs, o) == Outcome(false, [LogLine(Error, NoContent)], map[])
    ensures InputOf(inputs, "Credentials") != "" && InputOf(inputs, "Content") != "" && InputOf(inputs, "Prompt") == "" ==>
              Extraction(inputs, o) == Outcome(false, [LogLine(Error, NoPrompt)], map[])
  {
  }

  /** Every failure ends with exactly one error line and publishes nothing; every line before it is informational. */
  lemma {:induction false} FailureShape(inputs: map<string, string>, o: ExtractOracles)
    ensures var r := Extraction(inputs, o);
      && (r.ok <==> r.outputs != map[])
      && (!r.ok ==> r.logs != [] && r.logs[|r.logs| - 1].level == Error)
      && forall i :: 0 <= i < |r.logs| - 1 ==> r.logs[i].level == Info
  {
    var credentialId := InputOf(inputs, "Credentials");
    var content := InputOf(inputs, "Content");
    var prompt := InputOf(inputs, "Prompt");
    if credentialId != "" && content != "" && prompt != "" {
      var p := Prepared(content, o);
      if p.text.Ok? {
        DeliveredShape(credentialId, p.text.value, prompt, o);
      }
    }
  }

  lemma DeliveredShape(credentialId: string, text: string, prompt: string, o: ExtractOracles)
    ensures var r := Delivered(credentialId, text, prompt, o);
      && (r.ok <==> r.outputs != map[])
      && (!r.ok ==> r.logs != [] && r.logs[|r.logs| - 1].level == Error)
      && forall i :: 0 <= i < |r.logs| - 1 ==> r.logs[i].level == Info
  {
    var r := Delivered(credentialId, text, prompt, o);
    if r.ok {
      assert OutputName in r.outputs;
    }
  }

  /**
   * The run succeeds exactly when the inputs are present, the text was
   * prepared, the credential exists and decrypts to a non-empty key, and the
   * model answers with non-empty text; its only output is that text, as the
   * model sent it, and the model saw at most 6,000,000 characters of the
   * whitespace-normalised HTML.
   */
  lemma PublishesRawReply(inputs: map<string, string>, o: ExtractOracles)
    requires Extraction(inputs, o).ok
    ensures var content := InputOf(inputs, "Content");
      && InputOf(inputs, "Credentials") != "" && content != "" && InputOf(inputs, "Prompt") != ""
      && Prepared(content, o).text.Ok?
      && |Prepared(content, o).text.value| <= MaxChars
      && o.findCredential(InputOf(inputs, "Credentials")).Ok?
      && o.findCredential(InputOf(inputs, "Credentials")).value.Some?
      && var key := o.decrypt(o.findCredential(InputOf(inputs, "Credentials")).value.value);
         && key.Ok? && key.value != ""
         && var reply := o.complete(key.value, Prepared(content, o).text.value, InputOf(inputs, "Prompt"));
            && reply.Ok? && reply.value.content != ""
            && Extraction(inputs, o).outputs == map[OutputName := reply.value.content]
  {
  }

  /** The text handed to the model is a prefix of the normalised body, and all of it when the body fits. */
  lemma PreparedText(content: string, o: ExtractOracles)
    requires o.cleanDom(UnwrapEnvelope(content, o.decode).html).Ok?
    ensures var body := Normalized(o.cleanDom(UnwrapEnvelope(content, o.decode).html).value);
      var p := Prepared(content, o);
      && p.text.Ok?
      && StartsWith(body, p.text.value)
      && (|body| <= MaxChars ==> p.text.value == body)
      && p.notes == UnwrapEnvelope(content, o.decode).notes
                    + if |body| > MaxChars then [LogLine(Info, TooLargeMessage(|body|))] else []
  {
  }

  /** Lines 28-94: the envelope unwrapping, the DOM cleaning, the whitespace normalisation and the truncation. */
  method PrepareContent(env: Environment, content: string, o: ExtractOracles) returns (text: Result<string, Thrown>)
    modifies env`logs
    ensures text == Prepared(content, o).text
    ensures env.logs == old(env.logs) + Prepared(content, o).notes
  {
    var htmlContent := UnwrapContent(env, content, o.decode);
    var body := o.cleanDom(htmlContent);
    if body.Err? {
      return Err(body.error);
    }
    var cleanedContent := CleanContent(env, body.value);
    Appended(old(env.logs), UnwrapEnvelope(content, o.decode).notes, Truncate(Normalized(body.value)).1);
    return Ok(cleanedContent);
  }

  /** Lines 28-54: `htmlContent` starts as the content and is replaced by the envelope's HTML, with a note. */
  method UnwrapContent(env: Environment, content: string, decode: string -> Result<Value, Thrown>)
    returns (htmlContent: Value)
    modifies env`logs
    ensures htmlContent == UnwrapEnvelope(content, decode).html
    ensures env.logs == old(env.logs) + UnwrapEnvelope(content, decode).notes
  {
    htmlContent := Str(content);
    var unwrapped := UnwrapEnvelope(content, decode);
    htmlContent := unwrapped.html;
    if unwrapped.notes != [] {
      env.LogInfo(unwrapped.notes[0].message);
    }
    assert unwrapped.notes == [] || unwrapped.notes == [unwrapped.notes[0]];
  }

  /** Lines 86-94: whitespace runs collapsed, the ends trimmed, and the text cut to the budget with a note. */
  method CleanContent(env: Environment, body: string) returns (cleanedContent: string)
    modifies env`logs
    ensures cleanedContent == Truncate(Normalized(body)).0
    ensures env.logs == old(env.logs) + Truncate(Normalized(body)).1
  {
    cleanedContent := CollapseSpaces(body);
    cleanedContent := Trim(cleanedContent);
    cleanedContent := CutToBudget(env, cleanedContent);
  }

  /** Lines 90-94: the 6,000,000-character cut and its info line. */
  method CutToBudget(env: Environment, text: string) returns (cut: string)
    modifies env`logs
    ensures cut == Truncate(text).0
    ensures env.logs == old(env.logs) + Truncate(text).1
  {
    cut := text;
    if |cut| > MaxChars {
      env.LogInfo(TooLargeMessage(|cut|));
      cut := cut[..MaxChars];
    }
  }

  /** Lines 96-163: the credential, the decryption, the model call and the output. */
  method Deliver(env: Environment, credentialId: string, text: string, prompt: string, o: ExtractOracles)
    returns (ok: bool)
    modifies env`logs, env`outputs
    ensures var r := Delivered(credentialId, text, prompt, o);
      && ok == r.ok
      && env.logs == old(env.logs) + r.logs
      && env.outputs == old(env.outputs) + r.outputs
  {
    var credential := o.findCredential(credentialId);
    if credential.Err? {
      env.LogError(credential.error.message);
      return false;
    }
    if credential.value.None? {
      env.LogError(CredentialMissing);
      return false;
    }
    var plainCredentialValue := o.decrypt(credential.value.value);
    if plainCredentialValue.Err? {
      env.LogError(plainCredentialValue.error.message);
      return false;
    }
    if plainCredentialValue.value == "" {
      env.LogError(CannotDecrypt);
      return false;
    }
    var response := o.complete(plainCredentialValue.value, text, prompt);
    if response.Err? {
      env.LogError(response.error.message);
      return false;
    }
    env.LogInfo("Prompt tokens used: " + response.value.promptTokens);
    env.LogInfo("Completition tokens used: " + response.value.completionTokens);
    var result := response.value.content;
    if result == "" {
      env.LogError(EmptyReply);
      return false;
    }
    env.SetOutput(OutputName, result);
    assert env.outputs == old(env.outputs) + map[OutputName := result];
    return true;
  }

  /** `ExtractDataWithAiExecutor(environment)`: the early returns, the cleaning, the model call and the output. */
  method ExtractDataWithAiExecutor(env: Environment, o: ExtractOracles) returns (ok: bool)
    modifies env
    ensures var r := Extraction(env.inputs, o);
      && ok == r.ok
      && env.logs == old(env.logs) + r.logs
      && env.outputs == old(env.outputs) + r.outputs
  {
    var credentialId := env.GetInput("Credentials");
    if credentialId == "" {
      env.LogError(NoCredentials);
      return false;
    }
    var content := env.GetInput("Content");
    if content == "" {
      env.LogError(NoContent);
      return false;
    }
    var prompt := env.GetInput("Prompt");
    if prompt == "" {
      env.LogError(NoPrompt);
      return false;
    }
    ok := ExtractChecked(env, credentialId, content, prompt, o);
  }

  /** Lines 28-163, once the inputs are known to be present. */
  method ExtractChecked(env: Environment, credentialId: string, content: string, prompt: string, o: ExtractOracles)
    returns (ok: bool)
    modifies env`logs, env`outputs
    ensures var r := Checked(credentialId, content, prompt, o);
      && ok == r.ok
      && env.logs == old(env.logs) + r.logs
      && env.outputs == old(env.outputs) + r.outputs
  {
    ghost var notes := Prepared(content, o).notes;
    ghost var before := env.logs;
    var cleanedContent := PrepareContent(env, content, o);
    ok := Finish(env, credentialId, cleanedContent, prompt, o);
    ghost var r := if cleanedContent.Err? then Failed([], cleanedContent.error.message)
                   else Delivered(credentialId, cleanedContent.value, prompt, o);
    Appended(before, notes, r.logs);
  }

  /** Lines 95-163: the cleaning's exception becomes the error line; otherwise the delivery. */
  method Finish(env: Environment, credentialId: string, cleanedContent: Result<string, Thrown>, prompt: string, o: ExtractOracles)
    returns (ok: bool)
    modifies env`logs, env`outputs
    ensures var r := if cleanedContent.Err? then Failed([], cleanedContent.error.message)
                     else Delivered(credentialId, cleanedContent.value, prompt, o);
      && ok == r.ok
      && env.logs == old(env.logs) + r.logs
      && env.outputs == old(env.outputs) + r.outputs
  {
    if cleanedContent.Err? {
      env.LogError(cleanedContent.error.message);
      return false;
    }
    ok := Deliver(env, credentialId, cleanedContent.value, prompt, o);
  }

  // ---------------------------------------------------------------------------
  // Attribute stripping (ExtractDataWithAiExecutor.ts:65-83)

  /** An attribute the cleaner removes: `style`, `width`, `height`, or one named `data-…`, `aria-…` or `on…`. */
  predicate HeavyAttribute(name: string) {
    name == "style" || StartsWith(name, "data-") || StartsWith(name, "aria-") || StartsWith(name, "on")
    || name == "width" || name == "height"
  }

  /** The attribute names that are not heavy, in their order. */
  function LightAttributes(names: seq<string>): seq<string>
    decreases |names|
  {
    if names == [] then []
    else
      var last := names[|names| - 1];
      LightAttributes(names[..|names| - 1]) + if HeavyAttribute(last) then [] else [last]
  }

  /** The light attributes are exactly the names that are not heavy. */
  lemma {:induction false} LightAttributesMembers(names: seq<string>)
    ensures forall n :: n in LightAttributes(names) <==> n in names && !HeavyAttribute(n)
    ensures |LightAttributes(names)| <= |names|
    decreases |names|
  {
    if names != [] {
      var init := names[..|names| - 1];
      LightAttributesMembers(init);
      assert names == init + [names[|names| - 1]];
    }
  }

  /** The attribute names of one element, left after the heavy ones are removed, in order. */
  method RemoveHeavyAttributes(names: seq<string>) returns (kept: seq<string>)
    ensures kept == LightAttributes(names)
    ensures forall n :: n in kept <==> n in names && !HeavyAttribute(n)
    ensures |kept| <= |names|
  {
    kept := [];
    var i := 0;
    while i < |names|
      invariant 0 <= i <= |names|
      invariant kept == LightAttributes(names[..i])
    {
      assert names[..i + 1][..i] == names[..i];
      if !HeavyAttribute(names[i]) {
        kept := kept + [names[i]];
      }
      i := i + 1;
    }
    assert names[..i] == names;
    LightAttributesMembers(names);
  }
}
