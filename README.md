# WebExtract workflow recovery, export and chat helpers in Dafny

WebExtract builds web-scraping workflows: graphs of task nodes (launch a
browser, fetch a page's HTML, extract text, call a language model, deliver
to a webhook, export to Power BI) joined by edges. A chat panel asks a
language model for such a graph and turns its free-form reply into one.

This project models, in Dafny, the parts of that system that decide what
comes out:

- **The recovery parser** (`workflow-ai.ts`). It normalises the reply and
  locates JSON in it (a fenced block, a `"workflow"` object or the longest
  candidate object). It cleans the text and closes open strings and
  brackets with a stack-based balancer. It decodes, repairs and decodes
  again, rebuilds the `nodes`/`edges` arrays, and falls back to a chain
  built from the URLs in the reply. It then normalises nodes and edges,
  generates edges where handles are missing, validates the graph, and lays
  it out.
- **The Power BI export executor.** It parses its `Data` input as JSON,
  delimited text or plain lines, reshapes the rows for the chart type,
  stamps each record with metadata, writes CSV and publishes it.
- **The AI extraction executor.** It checks its inputs, unwraps a JSON
  envelope of HTML, collapses whitespace, cuts the text to 6,000,000
  characters and publishes the model's reply.
- **The `EXPORT_TO_POWERBI` task definition.**
- **The prompt builders.**
- **The credential form schema.**
- **The chat panel's helpers.** These are intent detection, titles, the
  local fallback workflow, the merge of a model reply into the open
  workflow, the prompt lookup for a retry, and the saved-conversation list.

Pure code is modelled as functions, with lemmas about them. The scanning
loops are methods proved equal to a specification function:

- the two balancers;
- the auto-edge loop;
- the validation loops;
- the CSV header collection;
- the layout walk.

Code that updates state is modelled imperatively:

- the layout (class `Layout.Positioner`);
- the executors, over class `Env.Environment`;
- the chat panel's conversation list (class `Chat.ChatState`).

Some calls are passed in as parameters and may fail:

- JSON decoding and encoding;
- `Number()` on strings;
- clocks, random numbers and generated ids;
- the DOM cleaner, the database, decryption and the model call.

JavaScript values are the datatype `Js.Value`. Its objects keep their
fields in insertion order. A read that throws in JavaScript yields
`Err(Thrown)` in the model.

## Model

| member | source | states |
|---|---|---|
| Balance.ExtractBalancedJson | web-extract/lib/workflow-ai.ts:18-59 | The method's output is the corrected balanced text `BalancedJson(s)`. That text runs from the first `{`/`[` outside a string to where the stack first empties, or to the end plus the missing quote and closers. |
| Balance.ScanJson | web-extract/lib/workflow-ai.ts:19-50 | The loop finds the first opener outside a string (-1 for none). It also finds the index where the stack first empties (-1 for never) and the scanner state at that point. |
| Balance.FirstOpenerNone | web-extract/lib/workflow-ai.ts:19-50 | With no `{` or `[` outside a string, the opener search reaches the end of the text. |
| Balance.BalancedJsonCloses | web-extract/lib/workflow-ai.ts:51-57 | Scanning the corrected output again ends with no string and no bracket open: the output is balanced. |
| Balance.StopsWhereStackEmpties | web-extract/lib/workflow-ai.ts:42-51 | When the stack first empties at k, both versions return exactly the text from the first opener to k, with nothing appended. |
| Balance.NoOpenerTrims | web-extract/lib/workflow-ai.ts:51-57 | With no opener outside a string, the result is the trimmed input, closed if it ends inside a string. |
| Balance.NoOpenerTrimsAsWritten | web-extract/lib/workflow-ai.ts:51-57 | In the same case the source appends a bare quote for an open string and no bracket closers. |
| Balance.ClosingCloses | web-extract/lib/workflow-ai.ts:53-57 | From any reachable scanner state, the corrected suffix (quote, then one closer per open bracket, innermost first) closes everything. |
| Balance.AppendClosers | web-extract/lib/workflow-ai.ts:54-57 | Popping the stack appends exactly the matching closers, innermost first. |
| Balance.AppendClosing | web-extract/lib/workflow-ai.ts:53-57 | Appends the closing quote(s), then the closers of the stack. |
| Balance.QuotesClose | web-extract/lib/workflow-ai.ts:53 | From a reachable state, the corrected closing quotes leave no string open and the stack unchanged. |
| Balance.RunValid | web-extract/lib/workflow-ai.ts:24-50 | A scan keeps the stack made of `{` and `[` only, and keeps the escape flag only inside a string. |
| Balance.StringAbsorbs | web-extract/lib/workflow-ai.ts:26-34 | Inside a string, brackets are plain characters and do not touch the stack. |
| Balance.CorrectionOnlyAfterBackslash | web-extract/lib/workflow-ai.ts:53 | The corrected and the as-written outputs differ only when the text ends inside a string right after a backslash. |
| Balance.AsWrittenLeavesStringOpen | web-extract/lib/workflow-ai.ts:53 | When the scan ends inside a string after a backslash, the source's output still ends inside a string. |
| Balance.EscapedQuoteExample | web-extract/lib/workflow-ai.ts:53 | On `{"a\` the source returns `{"a\"}`, which leaves the string open; the corrected output is `{"a\""}`. |
| Balance.BalancedJsonIdempotent | web-extract/lib/workflow-ai.ts:18-59 | Balancing the corrected output again gives it back unchanged. |
| Balance.AsWrittenNotIdempotent | web-extract/lib/workflow-ai.ts:18-59 | The source's balancer is not idempotent: `{"a\` gives `{"a\"}`, which balances again to `{"a\"}"}`. |
| Balance.AsWrittenStartsAtOpener | web-extract/lib/workflow-ai.ts:18-59 | When an opener exists outside a string, the source's output starts with it. |
| Balance.ExtractBalancedArrayFrom | web-extract/lib/workflow-ai.ts:67-108 | The method's output is the corrected balanced array from the given `[`: up to the `]` that empties the stack, or to the end plus the missing quote and closers. |
| Balance.ScanArray | web-extract/lib/workflow-ai.ts:68-97 | The loop copies exactly the characters up to and including the `]` that empties the stack, or to the end of the text. |
| Balance.BalancedArrayCloses | web-extract/lib/workflow-ai.ts:98-106 | Started on a `[`, the corrected array output scans back to the balanced state. |
| Balance.ArrayStackKeepsBottom | web-extract/lib/workflow-ai.ts:87-95 | The opening `[` stays at the bottom of the stack until the `]` that pops it. |
| Balance.ArrayCorrectionOnlyAfterBackslash | web-extract/lib/workflow-ai.ts:101 | For arrays too, the correction matters only after a dangling backslash. |
| Repair.NormalizeQuotes | web-extract/lib/workflow-ai.ts:6-10 | Every typographic double or single quote becomes `"`, every other character is kept, and none remains. |
| Repair.NormalizeQuotesIdempotent | web-extract/lib/workflow-ai.ts:6-10 | Normalising quotes twice is the same as once. |
| Repair.StripCommentsNoSlash | web-extract/lib/workflow-ai.ts:12-16 | Text without `/` passes comment stripping unchanged. |
| Repair.StripBlockCommentsNoStar | web-extract/lib/workflow-ai.ts:14 | Text without `*` has no block comment and is unchanged. |
| Repair.StripLineCommentsCopies | web-extract/lib/workflow-ai.ts:15 | A character that is not a slash or line terminator, and is not whitespace before a slash, is copied. |
| Repair.StripCommentsInsideString | web-extract/lib/workflow-ai.ts:15 | The pass is not string-aware: on `"a //b"` it keeps only `"a`. |
| Repair.TrailingLineComment | web-extract/lib/workflow-ai.ts:15 | Whitespace, `//` and the rest of a final line are removed entirely. |
| Repair.MeasuredMatch | web-extract/lib/workflow-ai.ts:63 | A match of `"measured"\s*:\s*\{[^}]*\}\s*,?` at the start of the text is at least 13 characters long and no longer than the text. |
| Repair.MeasuredMatchSound | web-extract/lib/workflow-ai.ts:63 | Every match has the pattern's structure. It is the key, whitespace up to the `:`, whitespace up to the `{`, the first `}` after it, and the whitespace after that. The comma is taken when one follows. |
| Repair.MeasuredMatchFound | web-extract/lib/workflow-ai.ts:63 | Conversely, text laid out that way is matched, through its comma when one follows. |
| Repair.StripMeasuredAbsent | web-extract/lib/workflow-ai.ts:62-64 | Text that never contains `"measured"` is unchanged. |
| Repair.MeasuredMatchExample | web-extract/lib/workflow-ai.ts:63 | On `"measured":{},` the match takes the field and its comma and nothing more. |
| Repair.NormalizeNewlines | web-extract/lib/workflow-ai.ts:275 | After the `\r\n` and `\r` passes no carriage return remains; text without one is unchanged. |
| Repair.NormalizeNewlinesIdempotent | web-extract/lib/workflow-ai.ts:275 | Normalising line endings twice is the same as once. |
| Repair.StripTrailingCommasEssence | web-extract/lib/workflow-ai.ts:126-127 | Removing trailing commas deletes only commas and whitespace; every other character survives in order. |
| Repair.TrailingCommaExample | web-extract/lib/workflow-ai.ts:126 | `[1, ]` becomes `[1]`. |
| Repair.TrailingCommasOnePass | web-extract/lib/workflow-ai.ts:126 | One pass leaves a comma: `,,]` becomes `,]`. |
| Repair.CollapseBlankLinesVisible | web-extract/lib/workflow-ai.ts:320 | Collapsing blank lines deletes only whitespace. |
| Repair.BareKeyMatch | web-extract/lib/workflow-ai.ts:339 | A bare-key match starts at `{` or `,`, holds an identifier between whitespace runs, and ends at `:`. |
| Repair.QuoteBareKeysBare | web-extract/lib/workflow-ai.ts:339 | Quoting keys adds only double quotes and removes only whitespace. |
| Repair.BareKeyMatchExample | web-extract/lib/workflow-ai.ts:339 | In `{a :1}` the key `a` is matched together with the space before its colon. |
| Repair.QuoteBareKeysNoOpener | web-extract/lib/workflow-ai.ts:339 | Text with no `{` or `,` is unchanged. |
| Repair.QuoteBareKeysExample | web-extract/lib/workflow-ai.ts:339 | `{a :1}` becomes `{"a":1}`. |
| Repair.SingleToDoubleQuotes | web-extract/lib/workflow-ai.ts:340 | Every `'` becomes `"`, and nothing else changes. |
| Reconstruct.ArrayStart | web-extract/lib/workflow-ai.ts:113-116 | The index found holds the `[` that opens the array. |
| Reconstruct.ArrayStartIsMatched | web-extract/lib/workflow-ai.ts:115-116 | `indexOf('[')` finds the bracket the key search matched, so the `startBracket === -1` branch cannot be taken. |
| Reconstruct.ReconstructWorkflowJson | web-extract/lib/workflow-ai.ts:111-130 | Reconstruction gives `null` exactly when the cleaned text has no `"nodes": [`. |
| Reconstruct.ReconstructNeedsNodes | web-extract/lib/workflow-ai.ts:113-114 | Reconstruction gives `null` exactly when no position of the cleaned text matches `"nodes"\s*:\s*\[`. |
| Reconstruct.ReconstructShape | web-extract/lib/workflow-ai.ts:111-130 | The result is `{"workflow":{"nodes":N,"edges":E}}`. N is the source's balanced array at the matched `[`, with its trailing commas removed: it starts with `[`, keeps every character of that array other than commas and whitespace, and scans back to the balanced state unless the scan ended right after a backslash inside a string. E is the same for edges, or `[]` when there is none. |
| Reconstruct.TidyKeepsScan | web-extract/lib/workflow-ai.ts:126-127 | Removing trailing commas leaves the balancer's state unchanged. |
| Reconstruct.TidiedArray | web-extract/lib/workflow-ai.ts:117-127 | Removing trailing commas from the source's balanced array at a `[` keeps the leading `[` and every character other than commas and whitespace. The result scans back to the balanced state unless the scan ended right after a backslash inside a string. |
| Locate.LastIndexOf | web-extract/lib/workflow-ai.ts:259 | Gives the position of the last occurrence of the character, or none exactly when it does not occur. |
| Locate.EndsInOpenValueIff | web-extract/lib/workflow-ai.ts:259 | The right-to-left check agrees with the regular expression for a string value left open at the end. |
| Locate.FenceFrom | web-extract/lib/workflow-ai.ts:277-278 | A match found is a well-formed fenced block at or after the start position. |
| Locate.FenceFromLeftmost | web-extract/lib/workflow-ai.ts:277-278 | No fence match is missed: none exists before the one found, and none at all when none is found. |
| Locate.FenceFromNone | web-extract/lib/workflow-ai.ts:277-278 | When no fence is found, no position from the start on holds one. |
| Locate.FencedBodyHasNoFence | web-extract/lib/workflow-ai.ts:277-280 | The lazy group stops at the first closing fence, so it holds no fence. |
| Locate.FencedBlock | web-extract/lib/workflow-ai.ts:277-280 | A `json` fence takes precedence over a plain fence; the block is its trimmed body, and there is none exactly when neither fence matches. |
| Locate.KeyOpenerAt | web-extract/lib/workflow-ai.ts:113 | A match is `"key"`, then only colons and whitespace, then the opener. |
| Locate.SearchKey | web-extract/lib/workflow-ai.ts:113 | Gives the leftmost match of the key pattern, or none when it matches nowhere. |
| Locate.WorkflowPattern | web-extract/lib/workflow-ai.ts:288 | A match runs from the first `{` of the text to a `}`. |
| Locate.InnerGroupEnd | web-extract/lib/workflow-ai.ts:294 | A `{[^{}]*}` group holds no brace between its ends. |
| Locate.ObjectEnd | web-extract/lib/workflow-ai.ts:294 | An object match ends with `}`. |
| Locate.ObjectMatches | web-extract/lib/workflow-ai.ts:294 | Every match is a substring of the text that starts with `{` and ends with `}`. |
| Locate.Candidates | web-extract/lib/workflow-ai.ts:297-299 | Filters the matches by `"nodes"`, `"workflow"` or a length over 500. The result is no longer than its input. |
| Locate.CandidatesMembers | web-extract/lib/workflow-ai.ts:297-299 | A text is a candidate exactly when it is a match that passes the filter. |
| Locate.CandidatesFirst | web-extract/lib/workflow-ai.ts:297-305 | The first candidate is the first match that passes the filter. |
| Locate.CandidatesAppend | web-extract/lib/workflow-ai.ts:297-299 | Filtering distributes over concatenation, so the matches' order is kept. |
| Locate.Longest | web-extract/lib/workflow-ai.ts:303-305 | Gives the first of the longest candidates. |
| Locate.SchemeAt | web-extract/lib/workflow-ai.ts:361 | The scheme found is `http://` or `https://` and is followed by at least one URL character. |
| Locate.Urls | web-extract/lib/workflow-ai.ts:361 | Every URL found satisfies the URL pattern. |
| Locate.UrlAt | web-extract/lib/workflow-ai.ts:361 | A scheme followed by its run of URL characters is a URL inside the text. |
| Locate.Destinations | web-extract/lib/workflow-ai.ts:362 | Filters the URLs by `httpbin` or `webhook`. The result is no longer than its input. |
| Locate.DestinationsMembers | web-extract/lib/workflow-ai.ts:362 | A URL is a destination exactly when it is one of the URLs and mentions `httpbin` or `webhook`. |
| Locate.DestinationsFirst | web-extract/lib/workflow-ai.ts:362-367 | The first destination, the webhook the fallback uses, is the first URL that mentions `httpbin` or `webhook`. |
| Locate.DestinationsAppend | web-extract/lib/workflow-ai.ts:362 | Filtering distributes over concatenation, so the URLs' order is kept. |
| Locate.Sites | web-extract/lib/workflow-ai.ts:363 | Filters the URLs mentioning neither `httpbin` nor `webhook`. The result is no longer than its input. |
| Locate.SitesMembers | web-extract/lib/workflow-ai.ts:363 | A URL is a site exactly when it is one of the URLs and mentions neither `httpbin` nor `webhook`. |
| Locate.SitesFirst | web-extract/lib/workflow-ai.ts:363-367 | The first site, the one the fallback opens, is the first URL that is not a destination. |
| Locate.SitesAppend | web-extract/lib/workflow-ai.ts:363 | Filtering distributes over concatenation, so the URLs' order is kept. |
| Locate.UrlsSplit | web-extract/lib/workflow-ai.ts:362-363 | Every URL is either a destination or a site, so the two counts add up to the number of URLs. |
| Parse.CreateFallbackWorkflow | web-extract/lib/workflow-ai.ts:153-237 | The method's pushes build the fallback graph `FallbackWorkflow`. |
| Parse.FallbackShape | web-extract/lib/workflow-ai.ts:153-237 | The fallback has three chained nodes and two edges, or four and three with a webhook URL. Node ids are distinct. The first node launches the browser on the site (or https://example.com); the fourth delivers to the webhook. |
| Parse.FallbackParts | web-extract/lib/workflow-ai.ts:156-234 | Node k is the k-th fallback node and edge k links node k to node k+1. |
| Parse.FallbackValid | web-extract/lib/workflow-ai.ts:153-237 | The fallback passes validation with no error. |
| Parse.MapAll | web-extract/lib/workflow-ai.ts:396-411 | `map` with a throwing callback gives every result in order, or the first exception. |
| Parse.NormalizeNode | web-extract/lib/workflow-ai.ts:396-405 | Normalising a node throws exactly on a null node or a node without `data`. |
| Parse.NormalizeNodeMeaning | web-extract/lib/workflow-ai.ts:396-405 | A normalised node keeps its id, or gets the generated one. Its type is `FlowScrapeNode`, its `data.inputs` defaults to `{}`, and its other fields are kept. |
| Parse.NormalizeEdge | web-extract/lib/workflow-ai.ts:407-411 | Normalising an edge throws exactly on a null edge. |
| Parse.NormalizeEdgeMeaning | web-extract/lib/workflow-ai.ts:407-411 | A normalised edge keeps its id, or gets `edge-<source>-<target>`. It is animated and keeps its other fields. |
| Parse.ProcessedEdges | web-extract/lib/workflow-ai.ts:407-411 | Absent edges give `[]`; a value that is not an array throws; an array is mapped element by element. |
| Parse.FinalEdges | web-extract/lib/workflow-ai.ts:413-420 | The mapped edges are kept only when there are some and all carry both handles; otherwise edges are generated. |
| Parse.WorkflowData | web-extract/lib/workflow-ai.ts:385 | A value with truthy `nodes` is used as it is; any other value gives its `workflow` field. |
| Parse.BuildWorkflow | web-extract/lib/workflow-ai.ts:384-433 | A build that succeeds returns a graph; a null decoded value throws. |
| Parse.BuildWorkflowMeaning | web-extract/lib/workflow-ai.ts:394-433 | The node count and order are kept and each node is normalised. The edges are the mapped ones or generated ones. Validation errors become one `Validation warnings: ` message and the graph is kept. |
| Parse.NoStructure | web-extract/lib/workflow-ai.ts:384-392 | A decoded value without truthy `nodes` gives the empty workflow with its explanation. |
| Parse.Located | web-extract/lib/workflow-ai.ts:277-315 | The fenced block comes first, then the `"workflow"` pattern, then the longest candidate; none only when all three fail. |
| Parse.QuotesEvened | web-extract/lib/workflow-ai.ts:324-325 | Afterwards the quote count is even. The text starts with the original and is at most one character longer. |
| Parse.Prepared | web-extract/lib/workflow-ai.ts:317-328 | The cleaned text, with its quotes evened, is handed to the source's balancer. Its output starts at the first opener outside a string, when there is one. |
| Parse.Repaired | web-extract/lib/workflow-ai.ts:338-342 | The repair quotes bare keys, turns single quotes into double quotes and removes trailing commas. It then rebalances with the source's balancer, whose output starts at the first opener outside a string, when there is one. |
| Parse.Reconstructed | web-extract/lib/workflow-ai.ts:350-357 | A value other than `undefined` is what decoding the reconstructed text gives. No reconstruction gives `undefined`. |
| Parse.UrlFallback | web-extract/lib/workflow-ai.ts:359-380 | The URL fallback always returns a graph. |
| Parse.UrlFallbackMeaning | web-extract/lib/workflow-ai.ts:359-380 | With a site URL, the result is the fallback chain on the first site, with the recovery error. It has four nodes when a destination exists and three otherwise. Without a site URL, the result is the empty workflow with the parse error. |
| Parse.Decoded | web-extract/lib/workflow-ai.ts:330-382 | When the strict decode, the repair and the reconstruction hand over to the URL fallback, the response carries a graph. |
| Parse.DecodeFallsBack | web-extract/lib/workflow-ai.ts:344-380 | When the strict decode and the decode of the repaired text both throw, and the reconstruction yields nothing truthy, the URL fallback applies, built on the first error. The repaired text is rebalanced by the source's own balancer. |
| Parse.Pipeline | web-extract/lib/workflow-ai.ts:273-433 | After the guard, the pipeline either throws or returns a graph. |
| Parse.ParseAIWorkflow | web-extract/lib/workflow-ai.ts:239-443 | There is no graph exactly when the streaming guard fires, and then the error is `JSON streaming in progress`. Otherwise a graph is always returned. |
| Parse.StreamingGuard | web-extract/lib/workflow-ai.ts:248-271 | Any of the four incompleteness tests fires the guard: more `{` than `}`, an odd quote count, a trailing comma, or an open string value. |
| Parse.NothingFound | web-extract/lib/workflow-ai.ts:293-313 | With no fence, no pattern and no candidate, the result is the empty workflow with the "could not find" explanation. |
| Parse.PipelineWithoutJson | web-extract/lib/workflow-ai.ts:307-313 | When the locator finds nothing, the pipeline returns the empty workflow. |
| Parse.FallsBackOnUrls | web-extract/lib/workflow-ai.ts:330-373 | When decoding the prepared text and its repair both throw, and reconstruction yields nothing truthy, the whole parse returns the URL fallback. Both texts are balanced as the source balances them. |
| Graph.BeforeOrder | web-extract/lib/workflow-ai.ts:607-612 | The position comparator (y, then x) is a strict weak order. |
| Graph.SortByPosition | web-extract/lib/workflow-ai.ts:607-612 | The sort returns a permutation of the nodes. |
| Graph.SortByPositionSorted | web-extract/lib/workflow-ai.ts:607-612 | The sorted nodes are ordered by ascending y, then ascending x. |
| Graph.Handles | web-extract/lib/workflow-ai.ts:624-636 | Handles exist exactly when the source's kind has an output and the target's kind has a visible input. They are the first output and the first input without `hideHandle`. |
| Graph.ChainEdges | web-extract/lib/workflow-ai.ts:617-658 | There are max(N-1, 0) edges, and edge i links sorted node i to sorted node i+1. |
| Graph.ChainEdgesFields | web-extract/lib/workflow-ai.ts:636-657 | Each edge has id `edge-<src>-<tgt>`, that source and target, `animated`, and its handles only when both exist. |
| Graph.AutoEdgesChain | web-extract/lib/workflow-ai.ts:602-662 | Readable, positioned nodes are chained in sorted order; the order is sorted and a permutation of the input. |
| Graph.AutoEdgesNeedPositions | web-extract/lib/workflow-ai.ts:607-612 | Comparing a node that has no position throws. |
| Graph.ChainLoop | web-extract/lib/workflow-ai.ts:617-658 | The loop builds exactly the chain edges. |
| Graph.GenerateAutoEdges | web-extract/lib/workflow-ai.ts:602-662 | The method returns the sorted chain, or the exception the sort or a read raises. |
| Graph.HasEntryPoint | web-extract/lib/workflow-ai.ts:454-456 | True exactly when some node is `LAUNCH_BROWSER` and every node before it can be read; false exactly when every node is readable and none is. |
| Graph.NodeErrors | web-extract/lib/workflow-ai.ts:463-480 | The node checks throw exactly on a null node or a node without `data`. |
| Graph.EdgeErrors | web-extract/lib/workflow-ai.ts:483-503 | The edge checks throw exactly on a null edge. |
| Graph.NodeErrorsNone | web-extract/lib/workflow-ai.ts:463-480 | A node gets no message exactly when it is clean: it has an id, a type, a known kind and inputs. |
| Graph.EdgeErrorsNone | web-extract/lib/workflow-ai.ts:483-503 | An edge gets no message exactly when it is clean: it has an id, a source and a target, both of which are node ids. |
| Graph.NodeChecksOk | web-extract/lib/workflow-ai.ts:463-480 | The node loop completes exactly when every node and its `data` can be read. |
| Graph.NodeChecksNone | web-extract/lib/workflow-ai.ts:463-480 | The node loop reports nothing exactly when every node is clean. |
| Graph.EdgeChecksNone | web-extract/lib/workflow-ai.ts:483-503 | The edge loop reports nothing exactly when every edge is clean. |
| Graph.NodeChecksHeaded | web-extract/lib/workflow-ai.ts:463-480 | Every node message names a node. |
| Graph.EdgeChecksHeaded | web-extract/lib/workflow-ai.ts:483-503 | Every edge message names an edge. |
| Graph.EachOk | web-extract/lib/workflow-ai.ts:463-503 | A `forEach` completes exactly when no callback throws. |
| Graph.EachNone | web-extract/lib/workflow-ai.ts:463-503 | A `forEach` reports nothing exactly when no callback reports anything. |
| Graph.Validation | web-extract/lib/workflow-ai.ts:445-509 | `isValid` holds exactly when the error list is empty. |
| Graph.NoNodesInvalid | web-extract/lib/workflow-ai.ts:448-451 | An empty node list gives exactly one error, `Workflow must have at least one node`. |
| Graph.NoEntryInvalid | web-extract/lib/workflow-ai.ts:453-460 | Without a `LAUNCH_BROWSER` node the graph is invalid and the entry error comes first. |
| Graph.DanglingSourceReported | web-extract/lib/workflow-ai.ts:492-498 | An edge whose source is no node id is reported, and the message names that source. |
| Graph.ValidationParts | web-extract/lib/workflow-ai.ts:445-509 | The errors are the entry error (if any), then the node messages, then the edge messages, in the order they are pushed. |
| Graph.OnlyEntryMissing | web-extract/lib/workflow-ai.ts:458-503 | If the entry error is the only error, no node or edge check reported anything. |
| Graph.EntryFixMakesValid | web-extract/lib/workflow-ai.ts:445-509 | If the entry error is the only error, making one node `LAUNCH_BROWSER` makes the graph valid. |
| Graph.CheckNodes | web-extract/lib/workflow-ai.ts:463-480 | The node loop returns the messages of every node in order, or the first exception. |
| Graph.CheckEdges | web-extract/lib/workflow-ai.ts:483-503 | The edge loop returns the messages of every edge in order, or the first exception. |
| Graph.ValidateWorkflow | web-extract/lib/workflow-ai.ts:445-509 | The method returns exactly `Validation`. It takes its inputs as values and cannot change them. |
| Layout.NodeMap | web-extract/lib/workflow-ai.ts:513 | Every primitive node id is a key of the map, and each key maps to a node carrying that id. |
| Layout.FindEntry | web-extract/lib/workflow-ai.ts:518 | Gives the first `LAUNCH_BROWSER` node, none, or the exception of an unreadable node before it. It agrees with `HasEntryPoint`. |
| Layout.ChildEdges | web-extract/lib/workflow-ai.ts:546 | Keeps exactly the edges whose source is the node id; it throws when a source cannot be read. |
| Layout.PlacedReads | web-extract/lib/workflow-ai.ts:540-543 | A placed node has the new position and keeps every other field. |
| Layout.RowAt | web-extract/lib/workflow-ai.ts:519-528 | The j-th node of a row is at x = 400·j. |
| Layout.Positioner.constructor | web-extract/lib/workflow-ai.ts:513-515 | The walk starts with the node map, no visited id and no placed node. |
| Layout.Positioner.PositionNodeAndChildren | web-extract/lib/workflow-ai.ts:531-555 | The walk's new state and returned y are exactly those of `Walk`, the recursive walk over the node and its children. The placed nodes are only appended to. |
| Layout.Positioner.PositionChildren | web-extract/lib/workflow-ai.ts:549-552 | The `forEach` over the child edges leaves exactly the state and lowest y that `Children` gives. |
| Layout.Walk | web-extract/lib/workflow-ai.ts:531-555 | The walk only adds visited ids, adds as many placed nodes as positions, and never throws when every edge can be read. |
| Layout.Children | web-extract/lib/workflow-ai.ts:546-553 | The walk of the children only adds visited ids and placed nodes, and returns a y no smaller than the current one. |
| Layout.ChildrenStep | web-extract/lib/workflow-ai.ts:549-552 | Child i is walked at x + 400·i and at the current y. The next child starts from the larger of that y and the one the walk returns. |
| Layout.WalkShape | web-extract/lib/workflow-ai.ts:531-555 | The walk only appends. Every node it places lies at x or to its right, between y and the y it returns. A new, known id is placed first, at (x, y), and every node placed after it has a y between y + 300 and the y returned. |
| Layout.ChildrenShape | web-extract/lib/workflow-ai.ts:546-553 | The children of the i-th edge on are placed at x + 400·i or to its right, between the current y and the y returned. |
| Layout.ChildPlaced | web-extract/lib/workflow-ai.ts:549-552 | An unvisited, known child of edge i is the next node placed, at (x + 400·i, current y). |
| Layout.PlaceAllAt | web-extract/lib/workflow-ai.ts:540-543 | The k-th placed node is the k-th walked node at the k-th position. |
| Layout.Positioner.PlaceRemaining | web-extract/lib/workflow-ai.ts:560-571 | The unvisited nodes are appended in one row at y = 600. |
| Layout.PlaceUnvisited | web-extract/lib/workflow-ai.ts:561-571 | Places every node whose id was not visited at y = 600, 400 apart from x = 0. |
| Layout.OptimizeWorkflowLayout | web-extract/lib/workflow-ai.ts:512-574 | The edges are returned unchanged, and the layout throws exactly when the source does. With no entry node, every node goes in one row at y = 0. Otherwise the nodes are those `Walk` places from the entry at (0, 0), followed by the unvisited nodes in a row at y = 600; the entry node comes first, at (0, 0). |
| Layout.UnvisitedCount | web-extract/lib/workflow-ai.ts:560-571 | With distinct ids, the visited ids and the unvisited nodes add up to all nodes. |
| Layout.LayoutKeepsCount | web-extract/lib/workflow-ai.ts:512-574 | With distinct ids, the layout returns as many nodes as it was given. |
| Registry.FirstVisibleInput | web-extract/lib/workflow-ai.ts:632 | Gives the first input without `hideHandle`, and none exactly when every input hides its handle. |
| Registry.FirstOutput | web-extract/lib/workflow-ai.ts:631 | Gives the first output, or none for no outputs. |
| Registry.Names | web-extract/lib/workflow/task/ExportToPowerBI.tsx:11-59 | The port names, in order. |
| Registry.ExportToPowerBIPorts | web-extract/lib/workflow/task/ExportToPowerBI.tsx:4-61 | `EXPORT_TO_POWERBI` is not an entry point. Its inputs are `Data` then the handle-less `Chart Type`, both required, so auto edges bind to `Data`. It has seven outputs, `Power BI CSV` first, and costs 2 credits. |
| Registry.OptionValues | web-extract/lib/workflow/task/ExportToPowerBI.tsx:22-27 | The option values, in order. |
| Registry.ExportToPowerBIChartOptions | web-extract/lib/workflow/task/ExportToPowerBI.tsx:22-27 | The chart options are exactly bar, line, pie and scatter. |
| Chart.KindOf | web-extract/lib/workflow/executor/ExportToPowerBIExecutor.ts:12-75 | `bar` and `pie` (and their aliases) pick their branches; the table branch is taken exactly for `table` and `matrix`. Case is ignored. |
| Chart.NumberOr | web-extract/lib/workflow/executor/ExportToPowerBIExecutor.ts:20 | `Number(v) \|\| d` is d for NaN and 0, and the number otherwise. |
| Chart.FirstTruthy | web-extract/lib/workflow/executor/ExportToPowerBIExecutor.ts:19 | `a \|\| b \|\| c \|\| d` is the first truthy value, else d. |
| Chart.Reshape | web-extract/lib/workflow/executor/ExportToPowerBIExecutor.ts:16-89 | Reshaping a row throws exactly when the branch reads the row's keys and the row is null or undefined. |
| Chart.ReshapeFrom | web-extract/lib/workflow/executor/ExportToPowerBIExecutor.ts:16-89 | Gives one reshaped row per input row, in order, or fails exactly when some row makes a reshape throw. |
| Chart.OptimizeDataForChart | web-extract/lib/workflow/executor/ExportToPowerBIExecutor.ts:6-91 | A non-array or empty input gives `[]`. |
| Chart.OptimizeKeepsRows | web-extract/lib/workflow/executor/ExportToPowerBIExecutor.ts:8-89 | There is one output row per input row; the map throws exactly on a null row in a key-reading branch. |
| Chart.OverRead | web-extract/lib/workflow/executor/ExportToPowerBIExecutor.ts:21 | With the row spread last, the row's own fields win over the computed ones. |
| Chart.BarRowFields | web-extract/lib/workflow/executor/ExportToPowerBIExecutor.ts:16-23 | The bar row's `category` falls back from the first key's value to `text`, `name` and `Item i+1`. Its `value` falls back from the second key's value to `value`, `count` and i+1, then goes through `Number`, with 0 for NaN. The row's own fields override both. |
| Chart.PieRowFields | web-extract/lib/workflow/executor/ExportToPowerBIExecutor.ts:28-35 | The pie row's `label` falls back to `Segment i+1`. Its value is never 0, and is 1 for an empty row. The row's own fields win. |
| Chart.LineRowPeriod | web-extract/lib/workflow/executor/ExportToPowerBIExecutor.ts:46 | A line row's `trend_period` is `Period_<floor(i/7)+1>` unless the row sets it. |
| Chart.LineRowAverage | web-extract/lib/workflow/executor/ExportToPowerBIExecutor.ts:47 | A line row's `moving_average` lies in [20, 99] unless the row sets it. |
| Chart.LineRowDate | web-extract/lib/workflow/executor/ExportToPowerBIExecutor.ts:44 | An empty line row's date is the day n - i days before now. |
| Chart.ScatterRowFields | web-extract/lib/workflow/executor/ExportToPowerBIExecutor.ts:54-63 | `color_group` cycles `Group_1` to `Group_4`, and `size` defaults to 5. |
| Chart.TableRows | web-extract/lib/workflow/executor/ExportToPowerBIExecutor.ts:65-73 | A table keeps every row, except that a string becomes `{text}`; it never throws. |
| Chart.DefaultRows | web-extract/lib/workflow/executor/ExportToPowerBIExecutor.ts:75-89 | A string row becomes `{id: i+1, text, value: i+1}`. An object row gets `id` i+1 unless it has its own, and keeps all its fields. |
| Csv.AddAllFacts | web-extract/lib/workflow/executor/ExportToPowerBIExecutor.ts:103 | Adding keys to the set keeps the earlier keys first and in order, adds exactly the new keys, and never repeats one. |
| Csv.HeaderUnionKeys | web-extract/lib/workflow/executor/ExportToPowerBIExecutor.ts:99-105 | The header holds exactly the keys of the object rows. |
| Csv.HeaderUnionDistinct | web-extract/lib/workflow/executor/ExportToPowerBIExecutor.ts:99-107 | No header repeats. |
| Csv.HeaderUnionGrows | web-extract/lib/workflow/executor/ExportToPowerBIExecutor.ts:99-107 | Headers appear in first-seen order. |
| Csv.CollectHeaders | web-extract/lib/workflow/executor/ExportToPowerBIExecutor.ts:99-107 | The `forEach` loop builds exactly the header union. |
| Csv.AddKeys | web-extract/lib/workflow/executor/ExportToPowerBIExecutor.ts:103 | The inner `forEach` adds each key of one row in turn, which is `AddAll`: earlier headers stay first, and only new keys are appended. |
| Csv.DoubleQuotes | web-extract/lib/workflow/executor/ExportToPowerBIExecutor.ts:122 | Doubling quotes adds no comma and no newline. |
| Csv.Escape | web-extract/lib/workflow/executor/ExportToPowerBIExecutor.ts:119-123 | A text that needs no quoting is written as is, and escaping adds no newline. |
| Csv.CellAgrees | web-extract/lib/workflow/executor/ExportToPowerBIExecutor.ts:114-126 | The corrected cell and the as-written cell agree on every value except an object or array. |
| Csv.FalsyCellEmpty | web-extract/lib/workflow/executor/ExportToPowerBIExecutor.ts:114-126 | A cell reads `''` exactly when the row's value under the header is falsy (0, `''`, false, null, undefined or missing). Both writers then write an empty field. A truthy value is written as is. |
| Csv.RecordAgrees | web-extract/lib/workflow/executor/ExportToPowerBIExecutor.ts:113-127 | When no cell is an object or array whose JSON needs quoting, the source's record and the corrected record are the same text. |
| Csv.KeywordsPlain | web-extract/lib/workflow/executor/ExportToPowerBIExecutor.ts:114-126 | `undefined`, `null`, `true` and `false` need no quoting. |
| Csv.IntTextPlain | web-extract/lib/workflow/executor/ExportToPowerBIExecutor.ts:114-126 | A number's text needs no quoting. |
| Csv.RowValues | web-extract/lib/workflow/executor/ExportToPowerBIExecutor.ts:113-114 | A row gives one value per header. |
| Csv.ReadQuotedDoubled | web-extract/lib/workflow/executor/ExportToPowerBIExecutor.ts:122 | A quote-doubled text followed by the closing quote reads back as the original text. |
| Csv.EscapedField | web-extract/lib/workflow/executor/ExportToPowerBIExecutor.ts:119-123 | One escaped field reads back to its text, followed by the rest of the record. |
| Csv.RecordRoundTrip | web-extract/lib/workflow/executor/ExportToPowerBIExecutor.ts:113-127 | Reading back a record written from texts gives those texts. |
| Csv.RecordReadsBack | web-extract/lib/workflow/executor/ExportToPowerBIExecutor.ts:113-127 | Every record the corrected writer produces reads back as the texts of its values. |
| Csv.ObjectCellSplits | web-extract/lib/workflow/executor/ExportToPowerBIExecutor.ts:117-118 | As written, an object value whose JSON holds a comma reads back as two or more fields. |
| Csv.RowLines | web-extract/lib/workflow/executor/ExportToPowerBIExecutor.ts:112-128 | Gives one line per row: the record the source writes for the row's values under the headers, with object and array cells as bare JSON. It throws exactly when headers exist and some row is null or undefined. |
| Csv.Csv | web-extract/lib/workflow/executor/ExportToPowerBIExecutor.ts:94-132 | No data gives `''`. Writing fails exactly when headers exist and some row is null or undefined. Otherwise the text starts with the header line. |
| Csv.DataLines | web-extract/lib/workflow/executor/ExportToPowerBIExecutor.ts:112-128 | When the cells are newline-free and none is an object or array whose JSON needs quoting, there is one newline-free line per row. Each line reads back as the row's cell texts. |
| Csv.ConvertToCsv | web-extract/lib/workflow/executor/ExportToPowerBIExecutor.ts:94-132 | The method returns exactly `Csv(data)`, the text the source writes. |
| Csv.CsvLines | web-extract/lib/workflow/executor/ExportToPowerBIExecutor.ts:110-131 | When no header or cell holds a newline, and no cell is an object or array whose JSON needs quoting, the CSV splits into exactly the header line plus one line per record. Each record line reads back as that row's cell texts. |
| Csv.RecordLineFree | web-extract/lib/workflow/executor/ExportToPowerBIExecutor.ts:113-127 | A record holds no newline when its cells hold none. |
| Csv.JoinFree | web-extract/lib/workflow/executor/ExportToPowerBIExecutor.ts:131 | Joining newline-free lines by a separator other than a newline gives newline-free text. |
| Export.KeepNonBlank | web-extract/lib/workflow/executor/ExportToPowerBIExecutor.ts:254 | Keeps exactly the lines that are not blank. |
| Export.NonBlankLines | web-extract/lib/workflow/executor/ExportToPowerBIExecutor.ts:254 | Every line kept is a single line and not blank. |
| Export.CleanCell | web-extract/lib/workflow/executor/ExportToPowerBIExecutor.ts:265 | A cleaned cell holds no `"`. |
| Export.Cells | web-extract/lib/workflow/executor/ExportToPowerBIExecutor.ts:265 | There is one cleaned cell per delimited field, in order. |
| Export.RecordOfKeys | web-extract/lib/workflow/executor/ExportToPowerBIExecutor.ts:270-274 | With distinct headers, a record's keys are exactly the headers, in order. |
| Export.RecordOfLookup | web-extract/lib/workflow/executor/ExportToPowerBIExecutor.ts:271-273 | Each header reads the value in its column, or `''` when the line is short; a later equal header wins. |
| Export.DelimitedRows | web-extract/lib/workflow/executor/ExportToPowerBIExecutor.ts:268-275 | There is one record per line after the header line. |
| Export.SimpleRows | web-extract/lib/workflow/executor/ExportToPowerBIExecutor.ts:278-282 | There is one record per line. |
| Export.Records | web-extract/lib/workflow/executor/ExportToPowerBIExecutor.ts:288-307 | An array keeps its length, and any other value is wrapped as the only record. |
| Export.DelimitedText | web-extract/lib/workflow/executor/ExportToPowerBIExecutor.ts:254-275 | A comma in the first non-blank line means CSV and beats a tab, which means TSV. Headers are trimmed and unquoted. Each later line maps each header to its cleaned value, or `''`. |
| Export.PlainText | web-extract/lib/workflow/executor/ExportToPowerBIExecutor.ts:277-284 | Without a delimiter, each non-blank line becomes `{id, text, value}` with the trimmed line. |
| Export.PlainLines | web-extract/lib/workflow/executor/ExportToPowerBIExecutor.ts:278-282 | The `{id: i+1, text, value: i+1}` records of plain lines. |
| Export.TextParse | web-extract/lib/workflow/executor/ExportToPowerBIExecutor.ts:254-285 | The first note counts the lines. `parsedData` stays `undefined` exactly when there is none. Otherwise it is an array with one record per line, or one per line after the header when the first line holds a comma or tab. |
| Export.ParseJson | web-extract/lib/workflow/executor/ExportToPowerBIExecutor.ts:243-251 | The success line comes last. A decoded string is decoded again when that succeeds and kept as the string otherwise; any other value is kept. |
| Export.Parsed | web-extract/lib/workflow/executor/ExportToPowerBIExecutor.ts:239-286 | A decodable input gives its value, or that value decoded again. Otherwise the text parsing applies: its first note counts the non-blank lines, and `parsedData` is `undefined` exactly when there is none. |
| Export.DecodeItem | web-extract/lib/workflow/executor/ExportToPowerBIExecutor.ts:290-298 | A string item is decoded, or becomes `{text}` when decoding fails; any other item is kept. |
| Export.BlankText | web-extract/lib/workflow/executor/ExportToPowerBIExecutor.ts:254-307 | Non-JSON text with no non-blank line leaves `undefined` as the single record. |
| Export.RecordsShape | web-extract/lib/workflow/executor/ExportToPowerBIExecutor.ts:289-300 | A string item is decoded, or wrapped as `{text}` when decoding fails; other items are kept. |
| Export.QualityInRange | web-extract/lib/workflow/executor/ExportToPowerBIExecutor.ts:324 | The quality score lies between 0.70 and 1.00. |
| Export.Stamped | web-extract/lib/workflow/executor/ExportToPowerBIExecutor.ts:318-327 | There is one stamped object per row. |
| Export.Metadata | web-extract/lib/workflow/executor/ExportToPowerBIExecutor.ts:318-327 | Record i gets the seven metadata keys, in order, with `chart_type` the requested type and `record_index` i + 1. |
| Export.MetadataKeys | web-extract/lib/workflow/executor/ExportToPowerBIExecutor.ts:318-327 | The metadata fields are the seven distinct keys, in order. |
| Export.StampedFields | web-extract/lib/workflow/executor/ExportToPowerBIExecutor.ts:318-327 | A stamped record has source `WebExtract`, the requested chart type and a 1-based index. It keeps the row's other fields. |
| Export.StampedCsv | web-extract/lib/workflow/executor/ExportToPowerBIExecutor.ts:318-330 | Every stamped record is an object, so writing the CSV cannot fail. |
| Export.ExportInputsChecked | web-extract/lib/workflow/executor/ExportToPowerBIExecutor.ts:216-229 | A missing `Data` or `Chart Type` logs its error after the start line and returns false, before any output. |
| Export.ExportResult | web-extract/lib/workflow/executor/ExportToPowerBIExecutor.ts:212-405 | With both inputs, the export fails only when a null record meets a key-reading chart branch. Otherwise it publishes exactly the CSV the source writes for the stamped records, and the download link. |
| Export.ParseInput | web-extract/lib/workflow/executor/ExportToPowerBIExecutor.ts:239-286 | `parsedData` is the JSON value (decoded twice for a JSON string) or the text parsing, with its log lines. |
| Export.ParseLines | web-extract/lib/workflow/executor/ExportToPowerBIExecutor.ts:254-285 | The `catch` branch produces exactly the delimited-text or plain-lines parsing, with its log lines. |
| Export.ReadRecords | web-extract/lib/workflow/executor/ExportToPowerBIExecutor.ts:231-309 | Gives the records handed to the reshaping, with the size, parsing and count log lines. |
| Export.Publish | web-extract/lib/workflow/executor/ExportToPowerBIExecutor.ts:335-405 | Publishes the CSV and the download link, or logs the failure. |
| Export.ExportChecked | web-extract/lib/workflow/executor/ExportToPowerBIExecutor.ts:231-405 | Once both inputs are present, the run writes exactly the verdict, log lines and outputs of `Shaped`, which publishes the CSV as the source writes it. |
| Export.Finish | web-extract/lib/workflow/executor/ExportToPowerBIExecutor.ts:312-405 | The run writes exactly the verdict, log lines and outputs of `Optimized`: a reshaping exception becomes the failure line, and otherwise the stamped records' CSV is published as the source writes it. |
| Export.OptimizedResult | web-extract/lib/workflow/executor/ExportToPowerBIExecutor.ts:312-405 | The run succeeds exactly when reshaping does. It then publishes exactly the CSV of the stamped records and the download link; otherwise there is no output and the last line is an error. |
| Export.ExportToPowerBIExecutor | web-extract/lib/workflow/executor/ExportToPowerBIExecutor.ts:212-601 | The executor's verdict, log lines and outputs are exactly those of `Exported`, whose CSV is the one the source writes. |
| Extract.PagesHtml | web-extract/lib/workflow/executor/ExtractDataWithAiExecutor.ts:44 | The map gives one entry per page, and succeeds exactly when no page is null. |
| Extract.PagesHtmlAt | web-extract/lib/workflow/executor/ExtractDataWithAiExecutor.ts:44 | A page whose `html` is truthy contributes its text; any other page contributes `''`. |
| Extract.UnwrapEnvelope | web-extract/lib/workflow/executor/ExtractDataWithAiExecutor.ts:28-54 | Content that does not look like JSON, or that fails to decode, stays verbatim with no note. Any change of content comes with exactly one info note. |
| Extract.EnvelopePrecedence | web-extract/lib/workflow/executor/ExtractDataWithAiExecutor.ts:36-50 | `combinedHTML` comes first, then `html`, then `pages` joined by blank lines. A value with none of them stays verbatim. |
| Extract.CollapseSpaces | web-extract/lib/workflow/executor/ExtractDataWithAiExecutor.ts:87 | Every whitespace run becomes one space: only spaces remain, and never two in a row. |
| Extract.CollapseSpacesKeepsText | web-extract/lib/workflow/executor/ExtractDataWithAiExecutor.ts:87 | Collapsing keeps every non-whitespace character, in order. |
| Extract.CollapseSpacesFixed | web-extract/lib/workflow/executor/ExtractDataWithAiExecutor.ts:87 | Text already collapsed is unchanged. |
| Extract.CollapseSpacesIdempotent | web-extract/lib/workflow/executor/ExtractDataWithAiExecutor.ts:87 | Collapsing twice is the same as once. |
| Extract.Truncate | web-extract/lib/workflow/executor/ExtractDataWithAiExecutor.ts:89-94 | The result is a prefix of the text, of length min(n, 6,000,000). An info line is added exactly when the text was longer. |
| Extract.Prepared | web-extract/lib/workflow/executor/ExtractDataWithAiExecutor.ts:28-94 | Every line written while preparing the text is informational. |
| Extract.Shortened | web-extract/lib/workflow/executor/ExtractDataWithAiExecutor.ts:86-94 | Normalising and cutting adds only informational lines. |
| Extract.PreparedText | web-extract/lib/workflow/executor/ExtractDataWithAiExecutor.ts:56-94 | The model is handed a prefix of the normalised body, and all of it when it fits. The lines written are the envelope note and the truncation note. |
| Extract.InputsCheckedInOrder | web-extract/lib/workflow/executor/ExtractDataWithAiExecutor.ts:12-26 | Credentials, Content and Prompt are checked in that order. The first missing one gives false, its error line alone, and no output. |
| Extract.FailureShape | web-extract/lib/workflow/executor/ExtractDataWithAiExecutor.ts:11-167 | The run succeeds exactly when it publishes. A failure ends with exactly one error line, and every earlier line is informational. |
| Extract.DeliveredShape | web-extract/lib/workflow/executor/ExtractDataWithAiExecutor.ts:96-163 | The same holds for the credential, decryption and model-call stage. |
| Extract.PublishesRawReply | web-extract/lib/workflow/executor/ExtractDataWithAiExecutor.ts:8-168 | Success needs the inputs, a found credential, a non-empty key and a non-empty reply. The only output is `Extracted Data`, the raw reply; the model saw at most 6,000,000 characters. |
| Extract.UnwrapContent | web-extract/lib/workflow/executor/ExtractDataWithAiExecutor.ts:28-54 | `htmlContent` becomes the unwrapped envelope, and its note is logged. |
| Extract.RemoveHeavyAttributes | web-extract/lib/workflow/executor/ExtractDataWithAiExecutor.ts:66-83 | Keeps exactly the attributes that are not `style`, `width`, `height`, `data-*`, `aria-*` or `on*`. |
| Extract.LightAttributesMembers | web-extract/lib/workflow/executor/ExtractDataWithAiExecutor.ts:66-83 | An attribute is kept exactly when it is one of the element's attributes and is not heavy; nothing is added. |
| Extract.CleanContent | web-extract/lib/workflow/executor/ExtractDataWithAiExecutor.ts:86-94 | The content is collapsed, trimmed and cut, with the truncation note. |
| Extract.CutToBudget | web-extract/lib/workflow/executor/ExtractDataWithAiExecutor.ts:89-94 | The text is cut to 6,000,000 characters, with its note. |
| Extract.PrepareContent | web-extract/lib/workflow/executor/ExtractDataWithAiExecutor.ts:28-94 | Gives the prepared text and logs its lines. |
| Extract.Deliver | web-extract/lib/workflow/executor/ExtractDataWithAiExecutor.ts:96-163 | The credential, decryption, model call and output behave exactly as `Delivered`. |
| Extract.Delivered | web-extract/lib/workflow/executor/ExtractDataWithAiExecutor.ts:96-163 | Success needs a found credential, a non-empty decrypted key and a non-empty reply. The only output is then `Extracted Data`, the reply's content. |
| Extract.Checked | web-extract/lib/workflow/executor/ExtractDataWithAiExecutor.ts:28-167 | The preparation notes come first. The run succeeds exactly when preparing the text succeeds and delivery succeeds. |
| Extract.Extraction | web-extract/lib/workflow/executor/ExtractDataWithAiExecutor.ts:8-168 | A successful run had all three inputs: Credentials, Content and Prompt. |
| Extract.Finish | web-extract/lib/workflow/executor/ExtractDataWithAiExecutor.ts:95-167 | A cleaning exception becomes the error line; otherwise the text is delivered. |
| Extract.ExtractChecked | web-extract/lib/workflow/executor/ExtractDataWithAiExecutor.ts:28-167 | Once the inputs are present, the run does exactly what `Checked` describes. |
| Extract.ExtractDataWithAiExecutor | web-extract/lib/workflow/executor/ExtractDataWithAiExecutor.ts:8-168 | The executor's verdict, log lines and outputs are exactly those of `Extraction`. |
| Prompts.AvailableTaskTypesFacts | web-extract/lib/prompts.ts:4-17 | There are 12 distinct kinds, `LAUNCH_BROWSER` first, and no `EXPORT_TO_POWERBI`. |
| Prompts.Quoted | web-extract/lib/prompts.ts:468-472 | The request sits between double quotes right after the fixed lead and is followed by a blank line. |
| Prompts.GenerateWorkflowPrompt | web-extract/lib/prompts.ts:467-486 | The prompt is the quoted request, then the context section exactly when `currentWorkflow` is truthy, then the fixed closing. |
| Prompts.Recent | web-extract/lib/prompts.ts:503 | Gives the last min(n, 5) messages. |
| Prompts.HistoryLines | web-extract/lib/prompts.ts:505 | Gives one `role: content` line per message. |
| Prompts.ModifyWorkflowPrompt | web-extract/lib/prompts.ts:488-513 | The prompt is the quoted request and the workflow, then the history section exactly when the history is non-empty, then the fixed closing. |
| Prompts.HistoryReadsBack | web-extract/lib/prompts.ts:502-508 | The history section splits into at most five lines. They are the last messages in their original order, one `role: content` line each. |
| Credential.Utf16Length | web-extract/schema/credential.ts:4-5 | A string's UTF-16 length lies between its code-point count and twice that, and is 0 only for the empty string. |
| Credential.FieldIssues | web-extract/schema/credential.ts:4-5 | A field reports no issue exactly when its length is between 1 and max. It reports "too small" exactly when empty and "too big" exactly when over max. |
| Credential.CredentialIssues | web-extract/schema/credential.ts:3-6 | A form passes exactly when the name has 1 to 30 characters and the value 1 to 1000. |
| Credential.IssuesNameTheirField | web-extract/schema/credential.ts:3-6 | The name's issues come first and blame the name; the value's issues blame the value. |
| Credential.BmpLength | web-extract/schema/credential.ts:4 | For text within the Basic Multilingual Plane, the UTF-16 length is the character count. |
| Chat.AnalyzeUserIntent | web-extract/components/ai/ChatInterface.tsx:149-174 | A create word gives `create` with 0.8, even when modify words are present. Otherwise a modify word gives `modify` with 0.9. Otherwise the result is `create` with 0.5. |
| Chat.CreateWordWins | web-extract/components/ai/ChatInterface.tsx:156-162 | A message with both "add" and "new" is read as a creation with 0.8. |
| Chat.FirstHit | web-extract/components/ai/ChatInterface.tsx:529-546 | Gives the first rule with a word in the text. |
| Chat.Choose | web-extract/components/ai/ChatInterface.tsx:529-546 | Gives the first rule's label, else the default. |
| Chat.CapitalizeWords | web-extract/components/ai/ChatInterface.tsx:552 | Capitalisation upper-cases exactly the first character of each word. |
| Chat.CapitalizedFixed | web-extract/components/ai/ChatInterface.tsx:552 | Already capitalised text is unchanged. |
| Chat.FirstDomain | web-extract/components/ai/ChatInterface.tsx:524 | A host found is non-empty. |
| Chat.FirstDomainLeftmost | web-extract/components/ai/ChatInterface.tsx:524 | The host found is that of the leftmost domain match; no position before it matches. |
| Chat.FirstDomainNone | web-extract/components/ai/ChatInterface.tsx:524 | When no host is found, no position matches. |
| Chat.ReplaceFirst | web-extract/components/ai/ChatInterface.tsx:548 | Replaces only the first occurrence. |
| Chat.GenerateWorkflowTitle | web-extract/components/ai/ChatInterface.tsx:519-553 | Every word of the title starts with a capital. |
| Chat.TitleShape | web-extract/components/ai/ChatInterface.tsx:519-553 | The title is the first action word (else Extract), a space and the first target label (else Data). When a domain matched, ` From ` and the domain follow, capitalised and without its first `www.`. |
| Chat.HttpUrlLength | web-extract/components/ai/ChatInterface.tsx:565 | Gives the length of `https?://` and the non-space run after it. |
| Chat.FirstHttpUrl | web-extract/components/ai/ChatInterface.tsx:565 | An index found starts an http(s) URL; otherwise the search reached the end. |
| Chat.FirstHttpUrlLeftmost | web-extract/components/ai/ChatInterface.tsx:565 | No http(s) URL starts before the one found. |
| Chat.NoHttpNoUrl | web-extract/components/ai/ChatInterface.tsx:564-566 | Text without `http` holds no http(s) URL. |
| Chat.UrlMentionsHttp | web-extract/components/ai/ChatInterface.tsx:564-566 | An input holding an http(s) URL contains `http`, so the guard passes. |
| Chat.FallbackSite | web-extract/components/ai/ChatInterface.tsx:564-566 | The Website Url is the first http(s) URL in the input, else https://example.com. |
| Chat.FallbackSelector | web-extract/components/ai/ChatInterface.tsx:591-594 | The selector is chosen by price, then title, then review, then a default. |
| Chat.FallbackGraphParts | web-extract/components/ai/ChatInterface.tsx:558-616 | The fallback's nodes are the three chain nodes and its edges the two chain edges. |
| Chat.FallbackGraphChains | web-extract/components/ai/ChatInterface.tsx:555-619 | There are always three nodes with distinct ids and two edges, chaining node 1 to 2 and node 2 to 3. |
| Chat.FallbackGraphInputs | web-extract/components/ai/ChatInterface.tsx:558-600 | The first node launches the browser on the URL; the third extracts by the selector. |
| Chat.FallbackGraph | web-extract/components/ai/ChatInterface.tsx:558-616 | The fallback graph has three nodes and two edges. |
| Chat.GenerateFallbackWorkflow | web-extract/components/ai/ChatInterface.tsx:555-619 | Three nodes with distinct ids are chained by two edges. The first launches the browser on the first http(s) URL of the input, else https://example.com. The third extracts by the selector the input's words choose. |
| Chat.IndexOfId | web-extract/components/ai/ChatInterface.tsx:719 | Gives the first message with the id, or -1 exactly when none has it. |
| Chat.FirstUserContent | web-extract/components/ai/ChatInterface.tsx:720 | Gives the first user message's text, or `''` when there is no user message. |
| Chat.LastUserBefore | web-extract/components/ai/ChatInterface.tsx:721 | Gives the nearest user message before the index, or -1 when there is none. |
| Chat.GetLastUserPromptBefore | web-extract/components/ai/ChatInterface.tsx:718-723 | The nearest earlier user message, when non-empty. Otherwise the first user message, and `''` when there is none. |
| Chat.LastUserPromptIsUserText | web-extract/components/ai/ChatInterface.tsx:718-723 | The prompt is always some user message's text, or `''` when there is no user message. |
| Chat.WithoutId | web-extract/components/ai/ChatInterface.tsx:101 | Removes exactly the entries with the id. |
| Chat.WithoutIdKeepsAll | web-extract/components/ai/ChatInterface.tsx:101 | Removing an absent id changes nothing. |
| Chat.ConversationTitle | web-extract/components/ai/ChatInterface.tsx:90 | The title is at most 53 characters and ends with `...`. |
| Chat.SavedList | web-extract/components/ai/ChatInterface.tsx:100-105 | The conversation comes first, no other entry has its id, and the list holds at most 50 entries. |
| Chat.SavedListFresh | web-extract/components/ai/ChatInterface.tsx:100-105 | With fewer than 50 entries, a new conversation is put in front of all the others. |
| Chat.ChatState.constructor | web-extract/components/ai/ChatInterface.tsx:43-50 | The panel starts with no messages, the stored list and no open conversation. |
| Chat.ChatState.SaveCurrentConversation | web-extract/components/ai/ChatInterface.tsx:86-110 | Without messages nothing changes. Otherwise the conversation is saved in front with its id and title, and a new conversation gets its id. |
| Chat.ChatState.DeleteConversation | web-extract/components/ai/ChatInterface.tsx:128-139 | Every entry with the id is removed. Messages and the open id are cleared only when that conversation is open. |
| Chat.FindNode | web-extract/components/ai/ChatInterface.tsx:431-440 | Gives the first matching node, none, or the exception of a null node met before a match. |
| Chat.WithInputReads | web-extract/components/ai/ChatInterface.tsx:447-455 | A patched node reads the new value under the key and keeps every other field. |
| Chat.KeepOriginalUrls | web-extract/components/ai/ChatInterface.tsx:443-477 | A null node throws; a node of neither kind, or with no original, is kept. |
| Chat.Originals | web-extract/components/ai/ChatInterface.tsx:431-440 | The originals found are existing nodes of the right kinds. |
| Chat.MergeIfMatching | web-extract/components/ai/ChatInterface.tsx:492-503 | Reading a null node throws. A matching node gets merged data; any other node is kept. |
| Chat.ApplySurgicalModifications | web-extract/components/ai/ChatInterface.tsx:424-515 | The result is the `try` block's, or `newWorkflow \|\| existingWorkflow` when it throws. |
| Chat.SurgicalTry | web-extract/components/ai/ChatInterface.tsx:425-512 | A null or undefined new workflow throws. A new workflow without at least one node in a `nodes` array gives `newWorkflow || existingWorkflow`. Several nodes, when the message does not ask to modify or add, give the new workflow as it is. |
| Chat.KeepUrls | web-extract/components/ai/ChatInterface.tsx:429-482 | Succeeds exactly when the originals and every node's update can be read. The new workflow keeps its other fields, and each of its nodes is replaced by that node with the original URLs kept. |
| Chat.MergeOne | web-extract/components/ai/ChatInterface.tsx:488-509 | Succeeds exactly when the existing nodes form an array and each can be merged. Each existing node, in order, is replaced by its merge with the new node. |
| Chat.BrowserTakesOriginalUrl | web-extract/components/ai/ChatInterface.tsx:445-457 | A browser-like node takes the original `Website Url` and keeps its other inputs. |
| Chat.WebhookTakesOriginalUrl | web-extract/components/ai/ChatInterface.tsx:459-474 | A webhook-like node takes the original endpoint under its own URL key. |
| Chat.SeveralNodesReplace | web-extract/components/ai/ChatInterface.tsx:427-484 | Several nodes without "modify" or "add" are taken as they are. |
| Chat.SeveralNodesKeepUrls | web-extract/components/ai/ChatInterface.tsx:427-483 | With "modify" or "add", the node count is kept and each node keeps the original URLs. |
| Chat.OneNodeMerges | web-extract/components/ai/ChatInterface.tsx:488-509 | A single new node keeps the existing nodes' count and order and merges into each match. The edges become the new ones when truthy, else the existing ones. |
| Chat.MergedReads | web-extract/components/ai/ChatInterface.tsx:497-500 | Merged data reads the new node's value for each key it has, and the old value otherwise. |

## Left out

- `SYSTEM_PROMPT` (`prompts.ts`) is fixed text with no logic.
- `parseStreamingWorkflow` is not modelled; its only logic is a retry of `parseAIWorkflow` on regex-picked blocks.
- The Power BI template text is not modelled, nor the `Template File`, `Visualization Config`, `HTML Report` and image outputs. The headless-browser rendering is also out, including its reuse of a shared browser and closing of one it launched. All of these are string templates and browser I/O.
- The final summary log lines and `storeFile` are not modelled; the stored file's id is a parameter.
- `performance.now` timings, `Date.now`, `new Date()`, `Math.random` and `crypto.randomUUID` are parameters of the model. This covers `moving_average`, the scatter defaults, `quality_score`, `powerbi_id`, `extraction_date` and generated ids.
- These calls are oracle parameters that may fail: `JSON.parse`, `JSON.stringify`, `Number()` on strings, the DOM cleaning by cheerio, the database lookup, `symmetricDecrypt` and the model call.
- JavaScript numbers are integers in the model. The quality score is kept as a whole number of hundredths, and fractions are not modelled.
- `Object.keys` lists keys in insertion order in the model; JavaScript's ordering of integer-like keys first is not modelled.
- `===` on two objects or arrays is taken as false (distinct references). A `Map` or `Set` keyed by an object therefore never finds it again.
- String lengths count code points. Only the credential schema counts UTF-16 code units, where the limits depend on them.
- `toLowerCase` and `toUpperCase` map ASCII letters only. The regex classes `\s` and `\w` are modelled by fixed character predicates.
- The `catch` of `analyzeUserIntent` is not modelled, because nothing in its `try` can throw.
- `Chat.ApplySurgicalModifications`: a `nodes` value that is not an array is treated as absent.
- localStorage, toasts, fetch, the JSX and `formatMessage` in `ChatInterface.tsx` are not modelled. They are UI and persistence.
- `Repair.StripTrailingCommasEssence`: it proves only that the pass deletes nothing but commas and whitespace, not that every trailing comma goes. `Repair.TrailingCommasOnePass` shows that they do not all go.
- `Chart.LineRowDate`: it states the default date only for a row with no fields, because other rows take their first field's value.
- `Chart.PieRowFields`: it states that the value is non-zero, and 1 for an empty row, rather than the full `Number` chain.
- Log texts that carry elapsed times or sizes in kilobytes are modelled with the time or size as a parameter.
- How inputs reach an executor along edges is the run controller's business, and is not part of this model; inputs are a fixed map.
- Registry entries other than `EXPORT_TO_POWERBI` are not part of this model; the registry is a parameter.
- The parse path and the CSV writer follow the code as written. The balancer can leave a string open after a trailing backslash (see Findings). An object or array cell is written as bare JSON (see Findings). Validation throws a TypeError on a node that is null or has no `data`, and on a null edge.
- `Graph.Coord`: a position coordinate that is not a number reads as 0. JavaScript would compare it as NaN or as a coerced value, which the integer model does not express.
- `Extract.Delivered`: a reply whose `choices` is empty makes the source log the two token lines and then throw while reading `.message` (`ExtractDataWithAiExecutor.ts:153`). The model's call either fails before any token line or returns a reply, so this case is not expressed.

## Findings

| source | as written | input that shows it | evidently intended | confidence | as-written member | corrected member |
|---|---|---|---|---|---|---|
| web-extract/lib/workflow-ai.ts:53 | When the scan ends inside a string, the balancer appends a single `"`, even right after a backslash, where that quote is itself escaped (the same holds at line 101 for arrays). | `{"a\` gives `{"a\"}`, which still ends inside a string. | The output scans back to a balanced state. After a dangling backslash that needs `""`: the first quote completes the escape and the second closes the string. | not executed | Balance.EscapedQuoteExample | Balance.BalancedJsonCloses |
| web-extract/lib/workflow/executor/ExportToPowerBIExecutor.ts:117-118 | An object or array cell is written as its JSON without quoting, while string cells are quoted under section 2 of RFC 4180. | The row `{"a": {"x": 1, "y": 2}}` writes the cell `{"x":1,"y":2}`, which reads back as two fields. | Every cell is quoted like a string when its text holds a comma, quote or newline, so each record reads back field for field. | not executed | Csv.ObjectCellSplits | Csv.RecordReadsBack |
