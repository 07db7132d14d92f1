/**
 * The prompts sent to the language model: the kinds of task it may use, and
 * the two user prompts, one asking for a new workflow and one asking for a
 * change to an existing workflow. `JSON.stringify(value, null, 2)` is a
 * parameter. The long system prompt is fixed text and is not part of this
 * model.
 */
module Prompts {
  import opened Text
  import opened Js

  /** `AVAILABLE_TASK_TYPES`: the kinds of task the model is told it may use, in the order it is told them. */
  const AvailableTaskTypes: seq<string> := [
    "LAUNCH_BROWSER",
    "PAGE_TO_HTML",
    "EXTRACT_TEXT_FROM_ELEMENT",
    "FILL_INPUT",
    "CLICK_ELEMENT",
    "WAIT_FOR_ELEMENT",
    "DELIVER_VIA_WEBHOOK",
    "EXTRACT_DATA_WITH_AI",
    "READ_PROPERTY_FROM_JSON",
    "ADD_PROPERTY_TO_JSON",
    "NAVIGATE_URL",
    "SCROLL_TO_ELEMENT"
  ]

  /**
   * Twelve distinct kinds, the browser launch first; the Power BI export is
   * not offered to the model.
   */
  lemma AvailableTaskTypesFacts()
    ensures |AvailableTaskTypes| == 12
    ensures AvailableTaskTypes[0] == "LAUNCH_BROWSER"
    ensures forall i, j :: 0 <= i < j < |AvailableTaskTypes| ==> AvailableTaskTypes[i] != AvailableTaskTypes[j]
    ensures "EXPORT_TO_POWERBI" !in AvailableTaskTypes
  {
  }

  const GenerateLead := "Generate a web scraping workflow for the following request:\n\n"
  const ModifyLead := "Modify the following workflow based on this request:\n\n"
  const GenerateClosing := "Return a complete workflow JSON with nodes and edges that accomplishes this task. Make sure to include a clear explanation of what the workflow does."
  const ModifyClosing := "Return the modified workflow JSON with nodes and edges. Include an explanation of the changes made."

  /** The request between double quotes on a line of its own, after the lead. */
  function Quoted(lead: string, userRequest: string): (s: string)
    ensures |s| == |lead| + |userRequest| + 4
    ensures s[..|lead|] == lead
    ensures s[|lead|] == '"' && s[|lead| + 1 + |userRequest|] == '"'
    ensures s[|lead| + 1..|lead| + 1 + |userRequest|] == userRequest
    ensures s[|s| - 2..] == "\n\n"
  {
    var s := lead + "\"" + userRequest + "\"\n\n";
    assert s[|lead| + 1..|lead| + 1 + |userRequest|] == userRequest;
    s
  }

  /** The section describing the workflow the request is about. */
  function ContextSection(workflowJson: string): string {
    "Current workflow context:\n" + workflowJson + "\n\nPlease modify or extend this workflow based on the request.\n\n"
  }

  /**
   * `generateWorkflowPrompt(userRequest, context)`: the quoted request, the
   * current workflow when `context?.currentWorkflow` is truthy, and the
   * closing sentence.
   */
  method GenerateWorkflowPrompt(userRequest: string, context: Value, pretty: Value -> string) returns (prompt: string)
    ensures var current := OptGet(context, "currentWorkflow");
      && (Truthy(current) ==> prompt == Quoted(GenerateLead, userRequest) + ContextSection(pretty(current)) + GenerateClosing)
      && (!Truthy(current) ==> prompt == Quoted(GenerateLead, userRequest) + GenerateClosing)
    ensures StartsWith(prompt, Quoted(GenerateLead, userRequest))
    ensures EndsWith(prompt, GenerateClosing)
  {
    prompt := Quoted(GenerateLead, userRequest);
    var current := OptGet(context, "currentWorkflow");
    if Truthy(current) {
      prompt := prompt + ContextSection(pretty(current));
    }
    prompt := prompt + GenerateClosing;
    assert prompt[..|Quoted(GenerateLead, userRequest)|] == Quoted(GenerateLead, userRequest);
    assert prompt[|prompt| - |GenerateClosing|..] == GenerateClosing;
  }

  /** One message of the conversation, as the prompt reads it. */
  datatype ChatMessage = ChatMessage(role: string, content: string)

  /** `conversationHistory.slice(-5)`: the last five messages, or all of them when there are fewer. */
  function Recent(history: seq<ChatMessage>): (recent: seq<ChatMessage>)
    ensures |recent| == if |history| < 5 then |history| else 5
    ensures recent == history[|history| - |recent|..]
  {
    if |history| <= 5 then history else history[|history| - 5..]
  }

  /** `${msg.role}: ${msg.content}`. */
  function HistoryLine(m: ChatMessage): string {
    m.role + ": " + m.content
  }

  function HistoryLines(recent: seq<ChatMessage>): (lines: seq<string>)
    ensures |lines| == |recent|
    ensures forall i :: 0 <= i < |recent| ==> lines[i] == HistoryLine(recent[i])
  {
    seq(|recent|, i requires 0 <= i < |recent| => HistoryLine(recent[i]))
  }

  /** The section listing the recent conversation, one message per line. */
  function HistorySection(history: seq<ChatMessage>): string {
    "Recent conversation context:\n" + Join(HistoryLines(Recent(history)), "\n") + "\n\n"
  }

  /** The quoted request and the current workflow. */
  function ModifyHead(userRequest: string, workflowJson: string): string {
    Quoted(ModifyLead, userRequest) + "Current workflow:\n" + workflowJson + "\n\n"
  }

  /**
   * `modifyWorkflowPrompt(userRequest, currentWorkflow, conversationHistory)`:
   * the quoted request, the current workflow, the recent conversation when
   * there is any, and the closing sentence.
   */
  method ModifyWorkflowPrompt(userRequest: string, currentWorkflow: Value, conversationHistory: seq<ChatMessage>,
                              pretty: Value -> string)
    returns (prompt: string)
    ensures conversationHistory != [] ==>
      prompt == ModifyHead(userRequest, pretty(currentWorkflow)) + HistorySection(conversationHistory) + ModifyClosing
    ensures conversationHistory == [] ==> prompt == ModifyHead(userRequest, pretty(currentWorkflow)) + ModifyClosing
    ensures StartsWith(prompt, Quoted(ModifyLead, userRequest))
    ensures EndsWith(prompt, ModifyClosing)
  {
    prompt := ModifyHead(userRequest, pretty(currentWorkflow));
    if |conversationHistory| > 0 {
      prompt := prompt + HistorySection(conversationHistory);
    }
    prompt := prompt + ModifyClosing;
    assert prompt[..|Quoted(ModifyLead, userRequest)|] == Quoted(ModifyLead, userRequest);
    assert prompt[|prompt| - |ModifyClosing|..] == ModifyClosing;
  }

  /**
   * When no role or content holds a line feed, the history lines read back
   * as the last (at most five) messages in their original order, one
   * `role: content` line each.
   */
  lemma HistoryReadsBack(history: seq<ChatMessage>)
    requires history != []
    requires forall i :: 0 <= i < |history| ==> '\n' !in history[i].role && '\n' !in history[i].content
    ensures var recent := Recent(history);
      var lines := Split(Join(HistoryLines(recent), "\n"), '\n');
      && |lines| == |recent| <= 5
      && (forall i :: 0 <= i < |recent| ==> lines[i] == recent[i].role + ": " + recent[i].content)
  {
    var recent := Recent(history);
    var lines := HistoryLines(recent);
    forall i | 0 <= i < |lines| ensures '\n' !in lines[i] {
      var m := history[|history| - |recent| + i];
      assert recent[i] == m;
      LineFree(m);
    }
    SplitJoin(lines, '\n');
  }

  lemma LineFree(m: ChatMessage)
    requires '\n' !in m.role && '\n' !in m.content
    ensures '\n' !in HistoryLine(m)
  {
    var s := HistoryLine(m);
    forall j | 0 <= j < |s| ensures s[j] != '\n' {
      if j < |m.role| {
        assert s[j] == m.role[j];
      } else if j >= |m.role| + 2 {
        assert s[j] == m.content[j - |m.role| - 2];
      }
    }
  }
}
