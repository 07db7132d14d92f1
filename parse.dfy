/**
 * `parseAIWorkflow` (workflow-ai.ts:239-443): turns a model reply into a
 * workflow graph. The stages, in order: the streaming guard, the locator
 * (fenced block, `"workflow"` pattern, longest candidate object), the cleanup
 * and strict decode, one repair pass, array reconstruction, the URL fallback
 * (`createFallbackWorkflow`, workflow-ai.ts:153-237), and node and edge
 * normalisation. Every exception is caught, so the function always returns.
 *
 * `JSON.parse`, `crypto.randomUUID`, `Date.now`, the registry of task kinds and the
 * set of task kinds come in as `Oracles`.
 */
module Parse {
  import opened Wrappers
  import opened Text
  import opened Js
  import opened Registry
  import opened Repair
  import opened Balance
  import opened Locate
  import opened Reconstruct
  import opened Graph

  datatype Workflow = Workflow(nodes: seq<Value>, edges: seq<Value>)

  /** `{workflow, explanation, error}`: an absent workflow or error is `None`, an absent explanation `undefined`. */
  datatype WorkflowResponse = WorkflowResponse(workflow: Option<Workflow>, explanation: Value, error: Option<string>)

  /**
   * What the parser takes from its surroundings: `JSON.parse`, the id
   * `generateNodeId()` gives the `i`-th node when it has none, `Date.now()`
   * for the fallback, the registry of task kinds and the kinds `TaskType` declares.
   */
  datatype Oracles = Oracles(
    decode: string -> Result<Value, Thrown>,
    newId: nat -> string,
    now: int,
    registry: TaskRegistry,
    taskTypes: set<string>)

  const EmptyWorkflow := Workflow([], [])

  const StreamingError := "JSON streaming in progress"
  const NoDataExplanation := "No workflow data found in response"
  const FallbackExplanation := "Created fallback workflow from extracted URLs"
  const FallbackError := "JSON parsing failed but recovered with URL extraction"
  const InvalidJsonExplanation := "Invalid JSON format in response"
  const ParseErrorPrefix := "Failed to parse workflow JSON: "
  const NoStructureExplanation := "No valid workflow structure found"
  const GeneratedExplanation := "Workflow generated successfully"
  const WarningsPrefix := "Validation warnings: "
  const FailureExplanation := "Failed to parse workflow from AI response"

  const NodeType := "FlowScrapeNode"
  const DragHandle := ".drag-handle"

  // ----- createFallbackWorkflow (workflow-ai.ts:153-237) -----

  const PageToHtml := "PAGE_TO_HTML"
  const ExtractText := "EXTRACT_TEXT_FROM_ELEMENT"
  const DeliverViaWebhook := "DELIVER_VIA_WEBHOOK"
  const DefaultSite := "https://example.com"
  const DefaultSelector := ".product, .item, h1, .title"

  /** `<what>-<timestamp>-<k>`. */
  function FallbackId(what: string, ts: int, k: nat): string {
    what + "-" + IntText(ts) + "-" + NatText(k)
  }

  /** The `k`-th node of the fallback chain, of the given kind, at `(x, 0)`. */
  function FallbackNode(ts: int, k: nat, kind: string, inputs: seq<Field>, x: int): Value {
    Obj([ Field("id", Str(FallbackId("node", ts, k))),
          Field("data", Obj([Field("type", Str(kind)), Field("inputs", Obj(inputs))])),
          Field("position", Obj([Field("x", Num(x)), Field("y", Num(0))])),
          Field("type", Str(NodeType)),
          Field("dragHandle", Str(DragHandle)) ])
  }

  /** The `k`-th edge of the chain, from node `k` to node `k + 1`. */
  function FallbackEdge(ts: int, k: nat): Value {
    Obj([ Field("id", Str(FallbackId("edge", ts, k))),
          Field("source", Str(FallbackId("node", ts, k))),
          Field("target", Str(FallbackId("node", ts, k + 1))),
          Field("animated", Bool(true)) ])
  }

  /** `if (webhookUrl)`. */
  predicate HasWebhook(webhookUrl: Option<string>) {
    webhookUrl.Some? && webhookUrl.value != []
  }

  function SiteNode(siteUrl: string, ts: int): Value {
    FallbackNode(ts, 1, LaunchBrowser, [Field("Website Url", Str(if siteUrl != [] then siteUrl else DefaultSite))], 0)
  }

  function WebhookNode(url: string, ts: int): Value {
    FallbackNode(ts, 4, DeliverViaWebhook, [Field("Target URL", Str(url)), Field("Body", Str(""))], 1200)
  }

  /** The browser, page and extraction nodes every fallback starts with. */
  function BaseNodes(siteUrl: string, ts: int): seq<Value> {
    [ SiteNode(siteUrl, ts),
      FallbackNode(ts, 2, PageToHtml, [Field("Web page", Str(""))], 400),
      FallbackNode(ts, 3, ExtractText, [Field("HTML", Str("")), Field("Selector", Str(DefaultSelector))], 800) ]
  }

  /** The workflow `createFallbackWorkflow(siteUrl, webhookUrl)` returns at time `ts`. */
  function FallbackWorkflow(siteUrl: string, webhookUrl: Option<string>, ts: int): Workflow {
    var nodes := BaseNodes(siteUrl, ts);
    var edges := [FallbackEdge(ts, 1), FallbackEdge(ts, 2)];
    if HasWebhook(webhookUrl) then Workflow(nodes + [WebhookNode(webhookUrl.value, ts)], edges + [FallbackEdge(ts, 3)])
    else Workflow(nodes, edges)
  }

  /** `createFallbackWorkflow`: the three-node chain, and the webhook node pushed when a webhook URL is given. */
  method CreateFallbackWorkflow(siteUrl: string, webhookUrl: Option<string>, ts: int) returns (w: Workflow)
    ensures w == FallbackWorkflow(siteUrl, webhookUrl, ts)
  {
    var nodes := BaseNodes(siteUrl, ts);
    var edges := [FallbackEdge(ts, 1), FallbackEdge(ts, 2)];
    if webhookUrl.Some? && webhookUrl.value != [] {
      nodes := nodes + [WebhookNode(webhookUrl.value, ts)];
      edges := edges + [FallbackEdge(ts, 3)];
    }
    w := Workflow(nodes, edges);
  }

  /** The `id` of a fallback node. */
  function IdOf(v: Value): Value {
    OptGet(v, "id")
  }

  /** Edge `k` of a chain runs from node `k` to node `k + 1`. */
  predicate Chains(w: Workflow) {
    && |w.edges| + 1 == |w.nodes|
    && forall k :: 0 <= k < |w.edges| ==>
         && OptGet(w.edges[k], "source") == IdOf(w.nodes[k])
         && OptGet(w.edges[k], "target") == IdOf(w.nodes[k + 1])
         && OptGet(w.edges[k], "animated") == Bool(true)
  }

  /** The kind of the `k`-th fallback node, counted from 1. */
  function FallbackKind(k: nat): string {
    if k == 1 then LaunchBrowser else if k == 2 then PageToHtml else if k == 3 then ExtractText else DeliverViaWebhook
  }

  /** What the validator and the chain read off the `k`-th fallback node. */
  ghost predicate IsFallbackNode(n: Value, ts: int, k: nat) {
    && n.Obj?
    && IdOf(n) == Str(FallbackId("node", ts, k))
    && ReadType(n) == Ok(Str(FallbackKind(k)))
    && TaskKind(n) == FallbackKind(k)
    && Truthy(OptGet(n, "position"))
  }

  lemma FallbackNodeReads(ts: int, k: nat, kind: string, inputs: seq<Field>, x: int)
    requires kind == FallbackKind(k)
    ensures IsFallbackNode(FallbackNode(ts, k, kind, inputs, x), ts, k)
    ensures OptGet(OptGet(FallbackNode(ts, k, kind, inputs, x), "data"), "inputs") == Obj(inputs)
  {
    var n := FallbackNode(ts, k, kind, inputs, x);
    var data := Obj([Field("type", Str(kind)), Field("inputs", Obj(inputs))]);
    LookupAt(n.fields, 0);
    LookupAt(n.fields, 1);
    LookupAt(n.fields, 2);
    LookupAt(data.fields, 0);
    LookupAt(data.fields, 1);
  }

  /** What the chain reads off a fallback edge. */
  lemma FallbackEdgeReads(ts: int, k: nat)
    ensures var e := FallbackEdge(ts, k);
      && !Nullish(e)
      && OptGet(e, "id") == Str(FallbackId("edge", ts, k))
      && OptGet(e, "source") == Str(FallbackId("node", ts, k))
      && OptGet(e, "target") == Str(FallbackId("node", ts, k + 1))
      && OptGet(e, "animated") == Bool(true)
  {
    var e := FallbackEdge(ts, k);
    LookupAt(e.fields, 0);
    LookupAt(e.fields, 1);
    LookupAt(e.fields, 2);
    LookupAt(e.fields, 3);
  }

  lemma FallbackIdsDiffer(what: string, ts: int, a: nat, b: nat)
    requires a < b < 10
    ensures FallbackId(what, ts, a) != FallbackId(what, ts, b)
  {
    var p := what + "-" + IntText(ts) + "-";
    assert FallbackId(what, ts, a) == p + [DigitChar(a)];
    assert FallbackId(what, ts, b) == p + [DigitChar(b)];
    assert (p + [DigitChar(a)])[|p|] == DigitChar(a);
    assert (p + [DigitChar(b)])[|p|] == DigitChar(b);
  }

  lemma InputRead(inputs: seq<Field>, k: string, v: Value)
    requires inputs != [] && inputs[0] == Field(k, v)
    ensures OptGet(Obj(inputs), k) == v
  {
  }

  /** The three nodes every fallback starts with. */
  lemma BaseNodesRead(siteUrl: string, ts: int)
    ensures var ns := BaseNodes(siteUrl, ts);
      && |ns| == 3
      && (forall k :: 0 <= k < 3 ==> IsFallbackNode(ns[k], ts, k + 1))
      && OptGet(OptGet(OptGet(ns[0], "data"), "inputs"), "Website Url")
           == Str(if siteUrl != [] then siteUrl else DefaultSite)
  {
    var ns := BaseNodes(siteUrl, ts);
    SiteNodeRead(siteUrl, ts);
    FallbackNodeReads(ts, 2, PageToHtml, [Field("Web page", Str(""))], 400);
    FallbackNodeReads(ts, 3, ExtractText, [Field("HTML", Str("")), Field("Selector", Str(DefaultSelector))], 800);
    assert IsFallbackNode(ns[0], ts, 1) && IsFallbackNode(ns[1], ts, 2) && IsFallbackNode(ns[2], ts, 3);
  }

  lemma SiteNodeRead(siteUrl: string, ts: int)
    ensures IsFallbackNode(SiteNode(siteUrl, ts), ts, 1)
    ensures OptGet(OptGet(OptGet(SiteNode(siteUrl, ts), "data"), "inputs"), "Website Url")
            == Str(if siteUrl != [] then siteUrl else DefaultSite)
  {
    var inputs1 := [Field("Website Url", Str(if siteUrl != [] then siteUrl else DefaultSite))];
    FallbackNodeReads(ts, 1, LaunchBrowser, inputs1, 0);
    InputRead(inputs1, "Website Url", Str(if siteUrl != [] then siteUrl else DefaultSite));
  }

  lemma WebhookNodeRead(url: string, ts: int)
    ensures IsFallbackNode(WebhookNode(url, ts), ts, 4)
    ensures OptGet(OptGet(OptGet(WebhookNode(url, ts), "data"), "inputs"), "Target URL") == Str(url)
  {
    var inputs4 := [Field("Target URL", Str(url)), Field("Body", Str(""))];
    FallbackNodeReads(ts, 4, DeliverViaWebhook, inputs4, 1200);
    InputRead(inputs4, "Target URL", Str(url));
  }

  /** The fallback, node by node and edge by edge. */
  lemma FallbackParts(siteUrl: string, webhookUrl: Option<string>, ts: int)
    ensures var w := FallbackWorkflow(siteUrl, webhookUrl, ts);
      && |w.nodes| == (if HasWebhook(webhookUrl) then 4 else 3)
      && |w.edges| + 1 == |w.nodes|
      && (forall k :: 0 <= k < |w.nodes| ==> IsFallbackNode(w.nodes[k], ts, k + 1))
      && (forall k :: 0 <= k < |w.edges| ==> w.edges[k] == FallbackEdge(ts, k + 1))
      && OptGet(OptGet(OptGet(w.nodes[0], "data"), "inputs"), "Website Url")
           == Str(if siteUrl != [] then siteUrl else DefaultSite)
      && (HasWebhook(webhookUrl) ==>
            OptGet(OptGet(OptGet(w.nodes[3], "data"), "inputs"), "Target URL") == Str(webhookUrl.value))
  {
    if HasWebhook(webhookUrl) {
      HookedParts(siteUrl, webhookUrl.value, ts);
    } else {
      BaseNodesRead(siteUrl, ts);
    }
  }

  lemma HookedParts(siteUrl: string, webhookUrl: string, ts: int)
    requires webhookUrl != []
    ensures var w := FallbackWorkflow(siteUrl, Some(webhookUrl), ts);
      && |w.nodes| == 4 && |w.edges| == 3
      && (forall k :: 0 <= k < 4 ==> IsFallbackNode(w.nodes[k], ts, k + 1))
      && (forall k :: 0 <= k < 3 ==> w.edges[k] == FallbackEdge(ts, k + 1))
      && OptGet(OptGet(OptGet(w.nodes[0], "data"), "inputs"), "Website Url")
           == Str(if siteUrl != [] then siteUrl else DefaultSite)
      && OptGet(OptGet(OptGet(w.nodes[3], "data"), "inputs"), "Target URL") == Str(webhookUrl)
  {
    var ns := BaseNodes(siteUrl, ts);
    var n4 := WebhookNode(webhookUrl, ts);
    BaseNodesRead(siteUrl, ts);
    WebhookNodeRead(webhookUrl, ts);
    PushedNode(ns, n4, ts);
  }

  /** Pushing the fourth fallback node after the first three keeps every node in its place. */
  lemma PushedNode(ns: seq<Value>, n4: Value, ts: int)
    requires |ns| == 3 && forall k :: 0 <= k < 3 ==> IsFallbackNode(ns[k], ts, k + 1)
    requires IsFallbackNode(n4, ts, 4)
    ensures forall k :: 0 <= k < 4 ==> IsFallbackNode((ns + [n4])[k], ts, k + 1)
  {
    forall k | 0 <= k < 4 ensures IsFallbackNode((ns + [n4])[k], ts, k + 1) {
      if k < 3 { assert (ns + [n4])[k] == ns[k]; }
    }
  }

  /** Fallback nodes joined by fallback edges form a chain with distinct ids. */
  lemma FallbackChains(w: Workflow, ts: int)
    requires |w.edges| + 1 == |w.nodes| <= 9
    requires forall k :: 0 <= k < |w.nodes| ==> IsFallbackNode(w.nodes[k], ts, k + 1)
    requires forall k :: 0 <= k < |w.edges| ==> w.edges[k] == FallbackEdge(ts, k + 1)
    ensures Chains(w)
    ensures forall i, j :: 0 <= i < j < |w.nodes| ==> IdOf(w.nodes[i]) != IdOf(w.nodes[j])
  {
    forall k | 0 <= k < |w.edges| ensures LinksNodes(w.edges[k], ts, k + 1) {
      FallbackEdgeReads(ts, k + 1);
    }
    FallbackEdgesChain(w, ts);
    FallbackIdsDistinct(w.nodes, ts);
  }

  /** `e` reads as an animated edge from the `k`-th fallback node to the next. */
  predicate LinksNodes(e: Value, ts: int, k: nat) {
    && OptGet(e, "source") == Str(FallbackId("node", ts, k))
    && OptGet(e, "target") == Str(FallbackId("node", ts, k + 1))
    && OptGet(e, "animated") == Bool(true)
  }

  lemma FallbackEdgesChain(w: Workflow, ts: int)
    requires |w.edges| + 1 == |w.nodes|
    requires forall k :: 0 <= k < |w.nodes| ==> IdOf(w.nodes[k]) == Str(FallbackId("node", ts, k + 1))
    requires forall k :: 0 <= k < |w.edges| ==> LinksNodes(w.edges[k], ts, k + 1)
    ensures Chains(w)
  {
    forall k | 0 <= k < |w.edges| ensures
         && OptGet(w.edges[k], "source") == IdOf(w.nodes[k])
         && OptGet(w.edges[k], "target") == IdOf(w.nodes[k + 1])
         && OptGet(w.edges[k], "animated") == Bool(true)
    {
      assert LinksNodes(w.edges[k], ts, k + 1);
    }
  }

  lemma FallbackIdsDistinct(nodes: seq<Value>, ts: int)
    requires |nodes| <= 9
    requires forall k :: 0 <= k < |nodes| ==> IdOf(nodes[k]) == Str(FallbackId("node", ts, k + 1))
    ensures forall i, j :: 0 <= i < j < |nodes| ==> IdOf(nodes[i]) != IdOf(nodes[j])
  {
    forall i, j | 0 <= i < j < |nodes| ensures IdOf(nodes[i]) != IdOf(nodes[j]) {
      FallbackIdsDiffer("node", ts, i + 1, j + 1);
    }
  }

  /**
   * The fallback is a chain of three nodes and two edges, or four and three
   * with a webhook URL; node ids are distinct; the first node launches the
   * browser on the site URL (or https://example.com when it is empty) and the
   * fourth delivers to the webhook URL.
   */
  lemma FallbackShape(siteUrl: string, webhookUrl: Option<string>, ts: int)
    ensures var w := FallbackWorkflow(siteUrl, webhookUrl, ts);
      && |w.nodes| == (if HasWebhook(webhookUrl) then 4 else 3)
      && Chains(w)
      && (forall i, j :: 0 <= i < j < |w.nodes| ==> IdOf(w.nodes[i]) != IdOf(w.nodes[j]))
      && TaskKind(w.nodes[0]) == LaunchBrowser
      && OptGet(OptGet(OptGet(w.nodes[0], "data"), "inputs"), "Website Url")
           == Str(if siteUrl != [] then siteUrl else DefaultSite)
      && (HasWebhook(webhookUrl) ==>
            && TaskKind(w.nodes[3]) == DeliverViaWebhook
            && OptGet(OptGet(OptGet(w.nodes[3], "data"), "inputs"), "Target URL") == Str(webhookUrl.value))
  {
    var w := FallbackWorkflow(siteUrl, webhookUrl, ts);
    FallbackParts(siteUrl, webhookUrl, ts);
    FallbackChains(w, ts);
    assert IsFallbackNode(w.nodes[0], ts, 1);
    if HasWebhook(webhookUrl) {
      assert IsFallbackNode(w.nodes[3], ts, 4);
    }
  }

  /** A fallback chain whose kinds are all known passes validation with no message. */
  lemma FallbackChainValid(w: Workflow, ts: int, taskTypes: set<string>)
    requires |w.edges| + 1 == |w.nodes| <= 9
    requires forall k :: 0 <= k < |w.nodes| ==> IsFallbackNode(w.nodes[k], ts, k + 1)
    requires forall k :: 0 <= k < |w.edges| ==> w.edges[k] == FallbackEdge(ts, k + 1)
    requires forall k :: 1 <= k <= |w.nodes| ==> FallbackKind(k) in taskTypes
    ensures Validation(w.nodes, w.edges, taskTypes) == Ok(ValidationResult(true, []))
  {
    assert IsFallbackNode(w.nodes[0], ts, 1);
    assert HasEntryPoint(w.nodes) == Ok(true);
    FallbackNodesClean(w.nodes, ts, taskTypes);
    FallbackEdgesClean(w, ts);
  }

  lemma FallbackNodesClean(nodes: seq<Value>, ts: int, taskTypes: set<string>)
    requires forall k :: 0 <= k < |nodes| ==> IsFallbackNode(nodes[k], ts, k + 1)
    requires forall k :: 1 <= k <= |nodes| ==> FallbackKind(k) in taskTypes
    ensures Each(nodes, 0, NodeCheck(taskTypes)) == Ok([])
  {
    forall k | 0 <= k < |nodes| ensures NodeClean(nodes[k], taskTypes) {
      FallbackNodeClean(nodes[k], ts, k + 1, taskTypes);
    }
    NodeChecksNone(nodes, taskTypes);
  }

  lemma FallbackNodeClean(n: Value, ts: int, k: nat, taskTypes: set<string>)
    requires IsFallbackNode(n, ts, k) && FallbackKind(k) in taskTypes
    ensures NodeClean(n, taskTypes)
  {
    var data := Get(n, "data");
    assert Read(n, "data") == Ok(data);
    assert Read(data, "type") == Ok(Str(FallbackKind(k)));
    assert Get(n, "id") == IdOf(n);
  }

  lemma FallbackEdgesClean(w: Workflow, ts: int)
    requires |w.edges| + 1 == |w.nodes| <= 9
    requires forall k :: 0 <= k < |w.nodes| ==> IsFallbackNode(w.nodes[k], ts, k + 1)
    requires forall k :: 0 <= k < |w.edges| ==> w.edges[k] == FallbackEdge(ts, k + 1)
    ensures Each(w.edges, 0, EdgeCheck(w.nodes)) == Ok([])
  {
    forall k | 0 <= k < |w.edges| ensures EdgeClean(w.edges[k], w.nodes) {
      FallbackEdgeClean(w.nodes, ts, k);
    }
    EdgeChecksNone(w.edges, w.nodes);
  }

  /** Fallback edge `k + 1` joins two nodes of the chain. */
  lemma FallbackEdgeClean(nodes: seq<Value>, ts: int, k: nat)
    requires k + 1 < |nodes|
    requires IdOf(nodes[k]) == Str(FallbackId("node", ts, k + 1))
    requires IdOf(nodes[k + 1]) == Str(FallbackId("node", ts, k + 2))
    ensures EdgeClean(FallbackEdge(ts, k + 1), nodes)
  {
    var e := FallbackEdge(ts, k + 1);
    FallbackEdgeReads(ts, k + 1);
    assert StrictEq(OptGet(nodes[k], "id"), Get(e, "source"));
    assert StrictEq(OptGet(nodes[k + 1], "id"), Get(e, "target"));
  }

  /** The fallback passes validation whenever its task kinds are known ones. */
  lemma FallbackValid(siteUrl: string, webhookUrl: Option<string>, ts: int, taskTypes: set<string>)
    requires LaunchBrowser in taskTypes && PageToHtml in taskTypes && ExtractText in taskTypes
    requires HasWebhook(webhookUrl) ==> DeliverViaWebhook in taskTypes
    ensures var w := FallbackWorkflow(siteUrl, webhookUrl, ts);
      Validation(w.nodes, w.edges, taskTypes) == Ok(ValidationResult(true, []))
  {
    var w := FallbackWorkflow(siteUrl, webhookUrl, ts);
    FallbackParts(siteUrl, webhookUrl, ts);
    FallbackChainValid(w, ts, taskTypes);
  }

  // ----- node and edge normalisation (workflow-ai.ts:396-433) -----

  /** `xs.map(f)` from index `from`, where `f` may throw: the results in order, or the first exception. */
  function MapAll(xs: seq<Value>, from: nat, f: (Value, nat) -> Result<Value, Thrown>): (r: Result<seq<Value>, Thrown>)
    requires from <= |xs|
    ensures r.Ok? <==> forall k :: from <= k < |xs| ==> f(xs[k], k).Ok?
    ensures r.Ok? ==> |r.value| == |xs| - from && forall k :: from <= k < |xs| ==> f(xs[k], k) == Ok(r.value[k - from])
    ensures r.Err? ==> exists k :: from <= k < |xs| && f(xs[k], k) == Err(r.error)
                          && forall j :: from <= j < k ==> f(xs[j], j).Ok?
    decreases |xs| - from
  {
    if from == |xs| then Ok([])
    else match f(xs[from], from)
      case Err(e) => Err(e)
      case Ok(y) =>
        match MapAll(xs, from + 1, f)
        case Err(e) => Err(e)
        case Ok(ys) => Ok([y] + ys)
  }

  /** The fields the node mapping writes over the node's own. */
  function NodeOverrides(id: Value, data: Value): seq<Field> {
    [Field("id", id), Field("type", Str(NodeType)), Field("dragHandle", Str(DragHandle)), Field("data", data)]
  }

  /**
   * `{...node, id: node.id || generateNodeId(), type, dragHandle,
   * data: {...node.data, inputs: node.data.inputs || {}}}` for the `i`-th
   * node; reading `id` throws on a null node and reading `inputs` on a node
   * without `data`.
   */
  function NormalizeNode(node: Value, i: nat, newId: nat -> string): (r: Result<Value, Thrown>)
    ensures r.Err? <==> Nullish(node) || Nullish(Get(node, "data"))
  {
    if Nullish(node) then Err(ReadError(node, "id"))
    else
      var data := Get(node, "data");
      if Nullish(data) then Err(ReadError(data, "inputs"))
      else
        var id := Or(Get(node, "id"), Str(newId(i)));
        var inputs := Or(Get(data, "inputs"), Obj([]));
        Ok(Obj(Spread(OwnFields(node), NodeOverrides(id, Obj(Spread(OwnFields(data), [Field("inputs", inputs)]))))))
  }

  function NodeMap(newId: nat -> string): (Value, nat) -> Result<Value, Thrown> {
    (node: Value, i: nat) => NormalizeNode(node, i, newId)
  }

  /** A key the node mapping writes. */
  predicate NodeKey(k: string) {
    k == "id" || k == "type" || k == "dragHandle" || k == "data"
  }

  /**
   * `n` is what the mapping makes of `node`, the `i`-th node: a truthy id is
   * kept and a missing one generated, the type is "FlowScrapeNode", `data`
   * keeps its fields and gets truthy `inputs` (`{}` by default), every other
   * field keeps its value, and the node's keys come first in their order.
   */
  ghost predicate NodeNormalised(node: Value, i: nat, newId: nat -> string, n: Value) {
    && node.Obj? && n.Obj?
    && Lookup(n.fields, "id") == (if Truthy(Lookup(node.fields, "id")) then Lookup(node.fields, "id") else Str(newId(i)))
    && Lookup(n.fields, "type") == Str(NodeType)
    && Lookup(n.fields, "dragHandle") == Str(DragHandle)
    && (forall k :: !NodeKey(k) ==> Lookup(n.fields, k) == Lookup(node.fields, k))
    && |node.fields| <= |n.fields| && Keys(n.fields)[..|node.fields|] == Keys(node.fields)
    && DataNormalised(Lookup(node.fields, "data"), Lookup(n.fields, "data"))
  }

  ghost predicate DataNormalised(data: Value, d: Value) {
    && !Nullish(data) && d.Obj?
    && Truthy(Lookup(d.fields, "inputs"))
    && (Truthy(Get(data, "inputs")) ==> Lookup(d.fields, "inputs") == Get(data, "inputs"))
    && (!Truthy(Get(data, "inputs")) ==> Lookup(d.fields, "inputs") == Obj([]))
    && (forall k :: k != "inputs" ==> Lookup(d.fields, k) == Lookup(OwnFields(data), k))
  }

  /** `r` is `fs` with `id`, `type`, `dragHandle` and `data` written over it. */
  ghost predicate Overridden(fs: seq<Field>, id: Value, d: Value, r: seq<Field>) {
    && Lookup(r, "id") == id
    && Lookup(r, "type") == Str(NodeType)
    && Lookup(r, "dragHandle") == Str(DragHandle)
    && Lookup(r, "data") == d
    && (forall k :: !NodeKey(k) ==> Lookup(r, k) == Lookup(fs, k))
    && |fs| <= |r| && Keys(r)[..|fs|] == Keys(fs)
  }

  lemma NodeOverridesUnique(id: Value, data: Value)
    ensures UniqueKeys(NodeOverrides(id, data))
    ensures forall k :: HasKey(NodeOverrides(id, data), k) <==> NodeKey(k)
  {
    var gs := NodeOverrides(id, data);
    assert Keys(gs) == ["id", "type", "dragHandle", "data"];
  }

  lemma OverridesRead(id: Value, data: Value)
    ensures var gs := NodeOverrides(id, data);
      Lookup(gs, "id") == id && Lookup(gs, "type") == Str(NodeType)
      && Lookup(gs, "dragHandle") == Str(DragHandle) && Lookup(gs, "data") == data
  {
    var gs := NodeOverrides(id, data);
    LookupAt(gs, 0);
    LookupAt(gs, 1);
    LookupAt(gs, 2);
    LookupAt(gs, 3);
  }

  lemma SpreadOverrides(fs: seq<Field>, gs: seq<Field>, id: Value, d: Value)
    requires UniqueKeys(gs) && forall k :: HasKey(gs, k) <==> NodeKey(k)
    requires Lookup(gs, "id") == id && Lookup(gs, "type") == Str(NodeType)
    requires Lookup(gs, "dragHandle") == Str(DragHandle) && Lookup(gs, "data") == d
    ensures Overridden(fs, id, d, Spread(fs, gs))
  {
    var r := Spread(fs, gs);
    forall k ensures Lookup(r, k) == if NodeKey(k) then Lookup(gs, k) else Lookup(fs, k) {
      SpreadLookup(fs, gs, k);
    }
    assert Lookup(r, "id") == id;
    assert Lookup(r, "type") == Str(NodeType);
    assert Lookup(r, "dragHandle") == Str(DragHandle);
    assert Lookup(r, "data") == d;
    SpreadKeys(fs, gs);
  }

  /** `{...data, inputs}`: `inputs` read back, every other field as in `data`. */
  lemma InputsOverride(data: Value, inputs: Value)
    ensures var r := Spread(OwnFields(data), [Field("inputs", inputs)]);
      Lookup(r, "inputs") == inputs && forall k :: k != "inputs" ==> Lookup(r, k) == Lookup(OwnFields(data), k)
  {
    var gs := [Field("inputs", inputs)];
    assert Keys(gs) == ["inputs"];
    forall k ensures Lookup(Spread(OwnFields(data), gs), k) == if k == "inputs" then inputs else Lookup(OwnFields(data), k) {
      SpreadLookup(OwnFields(data), gs, k);
    }
  }

  /** What a successful node mapping yields. */
  lemma NormalizeNodeMeaning(node: Value, i: nat, newId: nat -> string)
    requires NormalizeNode(node, i, newId).Ok?
    ensures NodeNormalised(node, i, newId, NormalizeNode(node, i, newId).value)
  {
    assert node.Obj?;
    var data := Lookup(node.fields, "data");
    var id := Or(Lookup(node.fields, "id"), Str(newId(i)));
    var inputs := Or(Get(data, "inputs"), Obj([]));
    var d := Obj(Spread(OwnFields(data), [Field("inputs", inputs)]));
    var n := NormalizeNode(node, i, newId).value;
    assert n == Obj(Spread(node.fields, NodeOverrides(id, d)));
    NodeOverridesUnique(id, d);
    OverridesRead(id, d);
    SpreadOverrides(node.fields, NodeOverrides(id, d), id, d);
    InputsOverride(data, inputs);
  }

  /** `{...edge, id: edge.id || `edge-${edge.source}-${edge.target}`, animated: true}`. */
  function NormalizeEdge(edge: Value): (r: Result<Value, Thrown>)
    ensures r.Err? <==> Nullish(edge)
  {
    if Nullish(edge) then Err(ReadError(edge, "id"))
    else
      var id := Or(Get(edge, "id"), Str("edge-" + ToText(Get(edge, "source")) + "-" + ToText(Get(edge, "target"))));
      Ok(Obj(Spread(OwnFields(edge), [Field("id", id), Field("animated", Bool(true))])))
  }

  function EdgeMap(): (Value, nat) -> Result<Value, Thrown> {
    (edge: Value, i: nat) => NormalizeEdge(edge)
  }

  /**
   * `e` is what the mapping makes of `edge`: a truthy id is kept, a missing
   * one becomes `edge-<source>-<target>`, `animated` is true, every other
   * field keeps its value and the edge's own keys come first.
   */
  ghost predicate EdgeNormalised(edge: Value, e: Value) {
    && !Nullish(edge) && e.Obj?
    && Lookup(e.fields, "id") == (if Truthy(Get(edge, "id")) then Get(edge, "id")
                                  else Str("edge-" + ToText(Get(edge, "source")) + "-" + ToText(Get(edge, "target"))))
    && Lookup(e.fields, "animated") == Bool(true)
    && (forall k :: k != "id" && k != "animated" ==> Lookup(e.fields, k) == Lookup(OwnFields(edge), k))
    && |OwnFields(edge)| <= |e.fields| && Keys(e.fields)[..|OwnFields(edge)|] == Keys(OwnFields(edge))
  }

  lemma NormalizeEdgeMeaning(edge: Value)
    requires NormalizeEdge(edge).Ok?
    ensures EdgeNormalised(edge, NormalizeEdge(edge).value)
  {
    var id := Or(Get(edge, "id"), Str("edge-" + ToText(Get(edge, "source")) + "-" + ToText(Get(edge, "target"))));
    var gs := [Field("id", id), Field("animated", Bool(true))];
    var e := NormalizeEdge(edge).value;
    assert e.fields == Spread(OwnFields(edge), gs);
    assert Keys(gs) == ["id", "animated"];
    forall k ensures Lookup(e.fields, k) == if k == "id" || k == "animated" then Lookup(gs, k) else Lookup(OwnFields(edge), k) {
      SpreadLookup(OwnFields(edge), gs, k);
    }
    LookupAt(gs, 0);
    LookupAt(gs, 1);
    SpreadKeys(OwnFields(edge), gs);
  }

  /** `workflowData.edges?.map(...) || []`: no edges when absent; a value without `map` throws. */
  function ProcessedEdges(edges: Value): (r: Result<seq<Value>, Thrown>)
    ensures Nullish(edges) ==> r == Ok([])
    ensures !Nullish(edges) && !edges.Arr? ==> r.Err?
    ensures edges.Arr? ==> r == MapAll(edges.items, 0, EdgeMap())
  {
    if Nullish(edges) then Ok([])
    else if edges.Arr? then MapAll(edges.items, 0, EdgeMap())
    else Err(Thrown("workflowData.edges?.map is not a function"))
  }

  /** `!edge.sourceHandle || !edge.targetHandle`. */
  predicate NeedsHandles(edge: Value) {
    !Truthy(OptGet(edge, "sourceHandle")) || !Truthy(OptGet(edge, "targetHandle"))
  }

  /** The edges kept: the mapped ones when all carry both handles, otherwise `generateAutoEdges(nodes)`. */
  function FinalEdges(nodes: seq<Value>, edges: seq<Value>, registry: TaskRegistry): (r: Result<seq<Value>, Thrown>)
    ensures (edges == [] || exists k :: 0 <= k < |edges| && NeedsHandles(edges[k])) ==> r == AutoEdges(nodes, registry)
    ensures (edges != [] && forall k :: 0 <= k < |edges| ==> !NeedsHandles(edges[k])) ==> r == Ok(edges)
  {
    if edges == [] || exists k :: 0 <= k < |edges| && NeedsHandles(edges[k]) then AutoEdges(nodes, registry)
    else Ok(edges)
  }

  /** `parsed.nodes ? parsed : parsed.workflow`, for a `parsed` that is not null or undefined. */
  function WorkflowData(parsed: Value): (r: Value)
    requires !Nullish(parsed)
    ensures Truthy(Get(parsed, "nodes")) ==> r == parsed
    ensures !Truthy(Get(parsed, "nodes")) ==> r == Get(parsed, "workflow")
  {
    if Truthy(Get(parsed, "nodes")) then parsed else Get(parsed, "workflow")
  }

  /**
   * From the decoded value to the response: the nodes and edges mapped, the
   * edges replaced by generated ones when needed, and the graph validated.
   * Reading `nodes` off a null value, calling `map` on a non-array and the
   * throwing steps inside raise an exception.
   */
  function BuildWorkflow(parsed: Value, o: Oracles): (r: Result<WorkflowResponse, Thrown>)
    ensures r.Ok? ==> r.value.workflow.Some?
    ensures Nullish(parsed) ==> r.Err?
  {
    if Nullish(parsed) then Err(ReadError(parsed, "nodes"))
    else
      var data := WorkflowData(parsed);
      var nodesV := OptGet(data, "nodes");
      if !Truthy(nodesV) then Ok(WorkflowResponse(Some(EmptyWorkflow), Str(NoStructureExplanation), None))
      else if !nodesV.Arr? then Err(Thrown("workflowData.nodes.map is not a function"))
      else match MapAll(nodesV.items, 0, NodeMap(o.newId))
        case Err(e) => Err(e)
        case Ok(nodes) =>
          match ProcessedEdges(OptGet(data, "edges"))
          case Err(e) => Err(e)
          case Ok(mapped) =>
            match FinalEdges(nodes, mapped, o.registry)
            case Err(e) => Err(e)
            case Ok(edges) =>
              match Validation(nodes, edges, o.taskTypes)
              case Err(e) => Err(e)
              case Ok(v) =>
                Ok(WorkflowResponse(
                  Some(Workflow(nodes, edges)),
                  Or(Get(parsed, "explanation"), Str(GeneratedExplanation)),
                  if v.isValid then None else Some(WarningsPrefix + Join(v.errors, ", "))))
  }

  /**
   * With an array of nodes, a successful build keeps the node count and order
   * and normalises each node; edges are the mapped ones, or generated ones
   * when one lacks a handle or there are none; the graph is returned whatever
   * validation says, with the validation errors joined into a warning.
   */
  lemma BuildWorkflowMeaning(parsed: Value, o: Oracles)
    requires !Nullish(parsed) && OptGet(WorkflowData(parsed), "nodes").Arr?
    requires BuildWorkflow(parsed, o).Ok?
    ensures var items := OptGet(WorkflowData(parsed), "nodes").items;
      var r := BuildWorkflow(parsed, o).value;
      var w := r.workflow.value;
      && |w.nodes| == |items|
      && (forall k :: 0 <= k < |items| ==> NodeNormalised(items[k], k, o.newId, w.nodes[k]))
      && ProcessedEdges(OptGet(WorkflowData(parsed), "edges")).Ok?
      && (var edgesV := OptGet(WorkflowData(parsed), "edges");
          var mapped := ProcessedEdges(edgesV).value;
          && (!edgesV.Arr? ==> mapped == [])
          && (edgesV.Arr? ==> (|mapped| == |edgesV.items|
                && forall k :: 0 <= k < |mapped| ==> EdgeNormalised(edgesV.items[k], mapped[k])))
          && Ok(w.edges) == FinalEdges(w.nodes, mapped, o.registry))
      && Validation(w.nodes, w.edges, o.taskTypes).Ok?
      && (var v := Validation(w.nodes, w.edges, o.taskTypes).value;
          r.error == (if v.errors == [] then None else Some(WarningsPrefix + Join(v.errors, ", "))))
      && r.explanation == Or(Get(parsed, "explanation"), Str(GeneratedExplanation))
  {
    var data := WorkflowData(parsed);
    var items := OptGet(data, "nodes").items;
    var nodes := MapAll(items, 0, NodeMap(o.newId)).value;
    forall k | 0 <= k < |items| ensures NodeNormalised(items[k], k, o.newId, nodes[k]) {
      assert NodeMap(o.newId)(items[k], k) == NormalizeNode(items[k], k, o.newId);
      NormalizeNodeMeaning(items[k], k, o.newId);
    }
    var edgesV := OptGet(data, "edges");
    var mapped := ProcessedEdges(edgesV).value;
    if edgesV.Arr? {
      forall k | 0 <= k < |mapped| ensures EdgeNormalised(edgesV.items[k], mapped[k]) {
        assert EdgeMap()(edgesV.items[k], k) == NormalizeEdge(edgesV.items[k]);
        NormalizeEdgeMeaning(edgesV.items[k]);
      }
    }
  }

  // ----- locating and decoding (workflow-ai.ts:273-389) -----

  /**
   * The text the locator settles on: the fenced block (cleaned and balanced),
   * else the `"workflow"` pattern match, else the longest candidate object;
   * none when all three fail.
   */
  function Located(clean: string): (r: Option<string>)
    ensures r.None? <==> FencedBlock(clean).None? && WorkflowPattern(clean).None?
                          && Candidates(ObjectMatches(clean, 0)) == []
    ensures FencedBlock(clean).None? && WorkflowPattern(clean).Some? ==>
              r == Some(clean[WorkflowPattern(clean).value.0..WorkflowPattern(clean).value.1])
    ensures FencedBlock(clean).None? && WorkflowPattern(clean).None? && r.Some? ==>
              r.value in ObjectMatches(clean, 0) && LooksLikeWorkflow(r.value)
              && forall c :: c in ObjectMatches(clean, 0) && LooksLikeWorkflow(c) ==> |c| <= |r.value|
  {
    match FencedBlock(clean)
    case Some(block) => Some(BalancedJsonAsWritten(StripTrailingCommas(StripMeasured(NormalizeQuotes(StripComments(block))))))
    case None =>
      match WorkflowPattern(clean)
      case Some((i, e)) => Some(clean[i..e])
      case None =>
        var cs := Candidates(ObjectMatches(clean, 0));
        CandidatesMembers(ObjectMatches(clean, 0));
        if cs == [] then None
        else
          var r := Longest(cs);
          assert r in cs;
          assert forall c :: c in cs ==> |c| <= |r|;
          Some(r)
  }

  /** The common cleanup: comments, smart quotes, the `measured` block and trailing commas removed, blank lines collapsed, trimmed. */
  function Tidied(found: string): string {
    Trim(CollapseBlankLines(StripTrailingCommas(StripMeasured(NormalizeQuotes(StripComments(found))))))
  }

  /** A closing quote appended when the count of quotes is odd: the count becomes even, and nothing else changes. */
  function QuotesEvened(t: string): (u: string)
    ensures Count(u, '"') % 2 == 0
    ensures StartsWith(u, t) && |u| <= |t| + 1
  {
    if Count(t, '"') % 2 != 0 then
      CountSnoc(t, '"');
      t + "\""
    else t
  }

  /** The common cleanup, the closing quote when their count is odd, and the balancer. */
  function Prepared(found: string): (r: string)
    ensures var u := QuotesEvened(Tidied(found));
      FirstOpener(u) < |u| ==> r != [] && r[0] == u[FirstOpener(u)] && IsOpener(r[0])
  {
    var u := QuotesEvened(Tidied(found));
    if FirstOpener(u) < |u| then
      AsWrittenStartsAtOpener(u);
      BalancedJsonAsWritten(u)
    else BalancedJsonAsWritten(u)
  }

  /** The repair pass: bare keys quoted, single quotes made double, trailing commas removed, rebalanced. */
  function Repaired(jsonStr: string): (r: string)
    ensures var u := StripTrailingCommas(SingleToDoubleQuotes(QuoteBareKeys(jsonStr)));
      FirstOpener(u) < |u| ==> r != [] && r[0] == u[FirstOpener(u)] && IsOpener(r[0])
  {
    var u := StripTrailingCommas(SingleToDoubleQuotes(QuoteBareKeys(jsonStr)));
    if FirstOpener(u) < |u| then
      AsWrittenStartsAtOpener(u);
      BalancedJsonAsWritten(u)
    else BalancedJsonAsWritten(u)
  }

  /** The value decoded from the reconstructed text, or `undefined`. */
  function Reconstructed(clean: string, decode: string -> Result<Value, Thrown>): (r: Value)
    ensures r != Undefined ==> ReconstructWorkflowJson(clean).Some? && decode(ReconstructWorkflowJson(clean).value) == Ok(r)
    ensures ReconstructWorkflowJson(clean).None? ==> r == Undefined
  {
    match ReconstructWorkflowJson(clean)
    case None => Undefined
    case Some(t) =>
      match decode(t)
      case Ok(v) => v
      case Err(_) => Undefined
  }

  function FirstOf(us: seq<string>): Option<string> {
    if us == [] then None else Some(us[0])
  }

  /** The last resort: a fallback chain from the URLs in the reply, or an empty workflow with the first parse error. */
  function UrlFallback(s: string, parseError: Thrown, ts: int): (r: WorkflowResponse)
    ensures r.workflow.Some?
  {
    var urls := Urls(s, 0);
    var sites := Sites(urls);
    if |sites| > 0 then
      WorkflowResponse(Some(FallbackWorkflow(sites[0], FirstOf(Destinations(urls)), ts)),
                       Str(FallbackExplanation), Some(FallbackError))
    else
      WorkflowResponse(Some(EmptyWorkflow), Str(InvalidJsonExplanation), Some(ParseErrorPrefix + parseError.message))
  }

  datatype Decoding = Parsed(value: Value) | Fallback(response: WorkflowResponse)

  /**
   * The decode attempts in order: the prepared text, its repair, the
   * reconstruction; a falsy value after the third attempt hands over to the
   * URL fallback. A falsy value from the first two attempts is kept.
   */
  function Decoded(jsonStr: string, clean: string, s: string, o: Oracles): (r: Decoding)
    ensures r.Fallback? ==> r.response.workflow.Some?
  {
    match o.decode(jsonStr)
    case Ok(v) => Parsed(v)
    case Err(parseError) =>
      match o.decode(Repaired(jsonStr))
      case Ok(v) => Parsed(v)
      case Err(_) =>
        var parsed := Reconstructed(clean, o.decode);
        if Truthy(parsed) then Parsed(parsed) else Fallback(UrlFallback(s, parseError, o.now))
  }

  /** The body of the outer `try`, after the streaming guard. */
  function Pipeline(s: string, o: Oracles): (r: Result<WorkflowResponse, Thrown>)
    ensures r.Ok? ==> r.value.workflow.Some?
  {
    var clean := NormalizeNewlines(s);
    match Located(clean)
    case None => Ok(WorkflowResponse(Some(EmptyWorkflow), Str(NoDataExplanation), None))
    case Some(found) =>
      match Decoded(Prepared(found), clean, s, o)
      case Fallback(resp) => Ok(resp)
      case Parsed(v) => BuildWorkflow(v, o)
  }

  /** `parseAIWorkflow(aiResponse, isStreaming)`. */
  function ParseAIWorkflow(s: string, isStreaming: bool, o: Oracles): (r: WorkflowResponse)
    ensures r.workflow.None? <==> isStreaming && LooksIncomplete(s)
    ensures r.workflow.None? ==> r == WorkflowResponse(None, Undefined, Some(StreamingError))
  {
    if isStreaming && LooksIncomplete(s) then WorkflowResponse(None, Undefined, Some(StreamingError))
    else
      match Pipeline(s, o)
      case Ok(resp) => resp
      case Err(e) => WorkflowResponse(Some(EmptyWorkflow), Str(FailureExplanation), Some(e.message))
  }

  // ----- what the orchestrator promises -----

  /**
   * The streaming guard fires on an unbalanced `{`, an odd number of quotes,
   * a trailing comma or an unterminated string value: no workflow, and the
   * error is exactly "JSON streaming in progress".
   */
  lemma StreamingGuard(s: string, o: Oracles)
    requires Count(s, '{') > Count(s, '}') || Count(s, '"') % 2 != 0 || EndsWith(Trim(s), ",")
             || exists p, q :: OpenValueAt(Trim(s), p, q)
    ensures ParseAIWorkflow(s, true, o) == WorkflowResponse(None, Undefined, Some(StreamingError))
  {
    EndsInOpenValueIff(Trim(s));
  }

  /** With no fenced block, no `"workflow"` pattern and no candidate object, the result is an empty workflow. */
  lemma NothingFound(s: string, isStreaming: bool, o: Oracles)
    requires !(isStreaming && LooksIncomplete(s))
    requires var clean := NormalizeNewlines(s);
      FencedBlock(clean).None? && WorkflowPattern(clean).None? && Candidates(ObjectMatches(clean, 0)) == []
    ensures ParseAIWorkflow(s, isStreaming, o) == WorkflowResponse(Some(EmptyWorkflow), Str(NoDataExplanation), None)
  {
    PipelineWithoutJson(s, o);
  }

  /** Past the streaming guard, a pipeline that returns gives the response. */
  lemma PastTheGuard(s: string, isStreaming: bool, o: Oracles)
    requires !(isStreaming && LooksIncomplete(s)) && Pipeline(s, o).Ok?
    ensures ParseAIWorkflow(s, isStreaming, o) == Pipeline(s, o).value
  {
  }

  /** When decoding hands over to the URL fallback, the pipeline returns the fallback's response. */
  lemma PipelineFallsBack(s: string, o: Oracles)
    requires Located(NormalizeNewlines(s)).Some?
    requires Decoded(Prepared(Located(NormalizeNewlines(s)).value), NormalizeNewlines(s), s, o).Fallback?
    ensures Pipeline(s, o) == Ok(Decoded(Prepared(Located(NormalizeNewlines(s)).value), NormalizeNewlines(s), s, o).response)
  {
  }

  lemma PipelineWithoutJson(s: string, o: Oracles)
    requires Located(NormalizeNewlines(s)).None?
    ensures Pipeline(s, o) == Ok(WorkflowResponse(Some(EmptyWorkflow), Str(NoDataExplanation), None))
  {
  }

  /**
   * When the strict decode, the repair and the reconstruction all fail, the
   * result is the URL fallback's, built on the first parse error.
   */
  lemma FallsBackOnUrls(s: string, isStreaming: bool, o: Oracles)
    requires !(isStreaming && LooksIncomplete(s))
    requires var clean := NormalizeNewlines(s);
      && Located(clean).Some?
      && o.decode(Prepared(Located(clean).value)).Err?
      && o.decode(Repaired(Prepared(Located(clean).value))).Err?
      && !Truthy(Reconstructed(clean, o.decode))
    ensures ParseAIWorkflow(s, isStreaming, o) ==
            UrlFallback(s, o.decode(Prepared(Located(NormalizeNewlines(s)).value)).error, o.now)
  {
    var clean := NormalizeNewlines(s);
    DecodeFallsBack(Prepared(Located(clean).value), clean, s, o);
    PipelineFallsBack(s, o);
    PastTheGuard(s, isStreaming, o);
  }

  lemma DecodeFallsBack(jsonStr: string, clean: string, s: string, o: Oracles)
    requires o.decode(jsonStr).Err? && o.decode(Repaired(jsonStr)).Err? && !Truthy(Reconstructed(clean, o.decode))
    ensures Decoded(jsonStr, clean, s, o) == Fallback(UrlFallback(s, o.decode(jsonStr).error, o.now))
  {
  }

  /** The URL fallback: the chain from the first site URL, or an empty workflow with the parse error. */
  lemma UrlFallbackMeaning(s: string, parseError: Thrown, ts: int)
    ensures var r := UrlFallback(s, parseError, ts);
      var urls := Urls(s, 0);
      && (Sites(urls) != [] ==>
            && r.error == Some(FallbackError)
            && r.explanation == Str(FallbackExplanation)
            && Chains(r.workflow.value)
            && |r.workflow.value.nodes| == (if Destinations(urls) != [] then 4 else 3)
            && OptGet(OptGet(OptGet(r.workflow.value.nodes[0], "data"), "inputs"), "Website Url") == Str(Sites(urls)[0]))
      && (Sites(urls) == [] ==>
            r == WorkflowResponse(Some(EmptyWorkflow), Str(InvalidJsonExplanation), Some(ParseErrorPrefix + parseError.message)))
  {
    var urls := Urls(s, 0);
    if Sites(urls) != [] {
      var dests := Destinations(urls);
      SitesMembers(urls);
      DestinationsMembers(urls);
      assert Sites(urls)[0] in Sites(urls);
      assert IsUrl(Sites(urls)[0]);
      if dests != [] {
        assert dests[0] in dests;
        assert IsUrl(dests[0]);
      }
      FallbackShape(Sites(urls)[0], FirstOf(dests), ts);
    }
  }

  /** A decoded value without truthy `nodes` (directly or under `workflow`) gives an empty workflow. */
  lemma NoStructure(parsed: Value, o: Oracles)
    requires !Nullish(parsed) && !Truthy(OptGet(WorkflowData(parsed), "nodes"))
    ensures BuildWorkflow(parsed, o) == Ok(WorkflowResponse(Some(EmptyWorkflow), Str(NoStructureExplanation), None))
  {
  }
}
