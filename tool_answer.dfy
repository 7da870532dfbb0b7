/** The consumer of the action parser in `llm_tools_enabled_chat_answer`:
    a first model answer is read until its decision; unless it already
    streamed an answer, the decided tool runs and a follow-up answer is
    streamed. Any exception on the way ends the stream with one error
    packet. The model, the tool and the prompt assembly are given as their
    outcomes. */
module ToolAnswer {
  import opened Common
  import opened ActionParser
  import ParserProperties

  /** Why the flow failed; the source yields `StreamingError(error=str(e))`. */
  datatype Failure =
    | EmptyUserMessage        // "User chat message is empty."
    | PromptTooLong           // `_drop_messages_history_overflow` raised
    | ParseFailed(e: ParserError)
    | NoFinalOutput           // "Model output finished without final output parsing."
    | ToolFailed              // the retrieval or `call_tool` raised
    | NoFinalAnswerAfterTool  // "LLM did not to produce a Final Answer after tool call"

  datatype Packet = Piece(text: string) | RetrievalDocs | StreamError(failure: Failure)

  /** The non-empty answer pieces among the items, as packets. */
  function Shown(items: seq<ParserItem>): (ps: seq<Packet>)
    ensures forall i :: 0 <= i < |ps| ==> ps[i].Piece? && ps[i].text != ""
    ensures |ps| <= |items|
    decreases |items|
  {
    if items == [] then []
    else Shown(items[..|items| - 1]) + ShownItem(items[|items| - 1])
  }

  function ShownItem(item: ParserItem): seq<Packet> {
    if item.AnswerPiece? && item.piece != "" then [Piece(item.piece)] else []
  }

  /** The index of the first decision among the items, |items| when there
      is none. */
  function DecisionAt(items: seq<ParserItem>): (k: nat)
    ensures k <= |items|
    ensures k < |items| ==> items[k].ChatModelOut?
    ensures forall j :: 0 <= j < k ==> !items[j].ChatModelOut?
  {
    if items == [] then 0
    else if items[0].ChatModelOut? then 0
    else 1 + DecisionAt(items[1..])
  }

  /** What the first loop yields and the decision it stops at. */
  datatype FirstPass = FirstPass(shown: seq<Packet>, decision: Option<ModelOut>, raised: Option<ParserError>)

  function FirstPassOf(run: ParserRun): FirstPass {
    var k := DecisionAt(run.items);
    if k < |run.items| then FirstPass(Shown(run.items[..k]), Some(run.items[k].out), None)
    else FirstPass(Shown(run.items), None, run.error)
  }

  /** The answer of the tool-enabled flow. `toolName` stands for
      `DANSWER_TOOL_NAME`, which this file neither defines nor imports. */
  function ToolsAnswer(
    userMessage: string, promptFits: bool, first: ParserRun,
    retrievalEnabled: bool, toolName: string, toolSucceeds: bool,
    followUpFits: bool, second: ParserRun): seq<Packet>
  {
    if userMessage == "" then [StreamError(EmptyUserMessage)]
    else if !promptFits then [StreamError(PromptTooLong)]
    else AfterFirstPass(FirstPassOf(first), retrievalEnabled, toolName, toolSucceeds, followUpFits, second)
  }

  /** What follows the first loop. */
  function AfterFirstPass(
    p: FirstPass, retrievalEnabled: bool, toolName: string, toolSucceeds: bool,
    followUpFits: bool, second: ParserRun): seq<Packet>
  {
    if p.raised.Some? then p.shown + [StreamError(ParseFailed(p.raised.value))]
    else if p.shown != [] then p.shown
    else if p.decision.None? then [StreamError(NoFinalOutput)]
    else if !toolSucceeds then [StreamError(ToolFailed)]
    else FollowUp(RetrievesDocs(p.decision.value, retrievalEnabled, toolName), followUpFits, second)
  }

  /** The decision names the retrieval tool while retrieval is enabled:
      the retrieved documents are yielded before the follow-up answer. */
  predicate RetrievesDocs(decision: ModelOut, retrievalEnabled: bool, toolName: string) {
    retrievalEnabled && Lower(decision.action) == Lower(toolName)
  }

  /** What follows a successful tool call. */
  function FollowUp(docs: bool, followUpFits: bool, second: ParserRun): seq<Packet> {
    var d := if docs then [RetrievalDocs] else [];
    if !followUpFits then d + [StreamError(PromptTooLong)]
    else if second.error.Some? then d + Shown(second.items) + [StreamError(ParseFailed(second.error.value))]
    else if Shown(second.items) == [] then d + [StreamError(NoFinalAnswerAfterTool)]
    else d + Shown(second.items)
  }

  lemma ShownSnoc(items: seq<ParserItem>, i: nat)
    requires i < |items|
    ensures Shown(items[..i + 1]) == Shown(items[..i]) + ShownItem(items[i])
  {
    assert items[..i + 1][..i] == items[..i];
  }

  // ---------------------------------------------------------------------
  // The two loops over the parser's output

  /** The first loop: yield the non-empty pieces until the decision. */
  method ReadDecision(run: ParserRun) returns (shown: seq<Packet>, finalResult: Option<ModelOut>, streamed: bool)
    ensures finalResult.Some? ==> FirstPassOf(run) == FirstPass(shown, finalResult, None)
    ensures finalResult.None? ==> FirstPassOf(run) == FirstPass(shown, None, run.error)
    ensures streamed <==> shown != []
  {
    shown, finalResult, streamed := [], None, false;
    var i := 0;
    while i < |run.items|
      invariant i <= DecisionAt(run.items)
      invariant shown == Shown(run.items[..i])
      invariant streamed <==> shown != []
      invariant finalResult.None?
    {
      var result := run.items[i];
      if result.AnswerPiece? && result.piece != "" {
        shown := shown + [Piece(result.piece)];
        streamed := true;
      }
      if result.ChatModelOut? {
        finalResult := Some(result.out);
        break;
      }
      DecisionLater(run.items, i);
      ShownSnoc(run.items, i);
      i := i + 1;
    }
    if finalResult.Some? {
      DecisionHere(run.items, i);
    } else {
      assert run.items[..i] == run.items;
    }
  }

  lemma DecisionLater(items: seq<ParserItem>, i: nat)
    requires i <= DecisionAt(items) && i < |items| && !items[i].ChatModelOut?
    ensures i + 1 <= DecisionAt(items)
  {
  }

  lemma DecisionHere(items: seq<ParserItem>, i: nat)
    requires i <= DecisionAt(items) && i < |items| && items[i].ChatModelOut?
    ensures DecisionAt(items) == i
  {
  }

  /** The second loop: yield every non-empty piece of the follow-up answer. */
  method StreamFollowUp(run: ParserRun) returns (shown: seq<Packet>, streamed: bool)
    ensures shown == Shown(run.items)
    ensures streamed <==> shown != []
  {
    shown, streamed := [], false;
    for i := 0 to |run.items|
      invariant shown == Shown(run.items[..i])
      invariant streamed <==> shown != []
    {
      var result := run.items[i];
      assert run.items[..i + 1][..i] == run.items[..i];
      if result.AnswerPiece? && result.piece != "" {
        shown := shown + [Piece(result.piece)];
        streamed := true;
      }
    }
    assert run.items[..|run.items|] == run.items;
  }

  /** `llm_tools_enabled_chat_answer` from the parsed user message on,
      with the exception handler around it. */
  method ToolsEnabledChatAnswer(
    userMessage: string, promptFits: bool, first: ParserRun,
    retrievalEnabled: bool, toolName: string, toolSucceeds: bool,
    followUpFits: bool, second: ParserRun) returns (packets: seq<Packet>)
    ensures packets == ToolsAnswer(userMessage, promptFits, first, retrievalEnabled, toolName, toolSucceeds, followUpFits, second)
  {
    if userMessage == "" {
      return [StreamError(EmptyUserMessage)];
    }
    if !promptFits {
      return [StreamError(PromptTooLong)];
    }
    var shown, finalResult, finalAnswerStreamed := ReadDecision(first);
    packets := shown;
    if finalResult.None? && first.error.Some? {
      return packets + [StreamError(ParseFailed(first.error.value))];
    }
    if finalAnswerStreamed {
      return;
    }
    if finalResult.None? {
      return packets + [StreamError(NoFinalOutput)];
    }
    if !toolSucceeds {
      return packets + [StreamError(ToolFailed)];
    }
    packets := ToolFollowUp(RetrievesDocs(finalResult.value, retrievalEnabled, toolName), followUpFits, second);
  }

  /** From the tool call on: the retrieved documents when the retrieval
      tool was chosen, then the follow-up answer, streamed by the second
      loop. */
  method ToolFollowUp(docs: bool, followUpFits: bool, second: ParserRun) returns (packets: seq<Packet>)
    ensures packets == FollowUp(docs, followUpFits, second)
  {
    packets := [];
    if docs {
      packets := packets + [RetrievalDocs];
    }
    if !followUpFits {
      return packets + [StreamError(PromptTooLong)];
    }
    var more, streamed := StreamFollowUp(second);
    packets := packets + more;
    if second.error.Some? {
      return packets + [StreamError(ParseFailed(second.error.value))];
    }
    if !streamed {
      return packets + [StreamError(NoFinalAnswerAfterTool)];
    }
  }

  // ---------------------------------------------------------------------
  // Properties of the flow

  predicate IsError(p: Packet) {
    p.StreamError?
  }

  lemma FollowUpShape(docs: bool, followUpFits: bool, second: ParserRun)
    ensures var ps := FollowUp(docs, followUpFits, second);
      && ps != []
      && (forall i :: 0 <= i < |ps| - 1 ==> !IsError(ps[i]))
      && (!IsError(ps[|ps| - 1]) ==> exists i :: 0 <= i < |ps| && ps[i].Piece?)
  {
    var ps := FollowUp(docs, followUpFits, second);
    var d: seq<Packet> := if docs then [RetrievalDocs] else [];
    var shown := Shown(second.items);
    if followUpFits && second.error.None? && shown != [] {
      assert ps == d + shown;
      assert ps[|d|] == shown[0];
    }
  }

  /** The exception handler: a failure ends the stream with exactly one
      error packet, nothing is yielded after it, and a stream ending
      without an error has streamed an answer piece. */
  lemma ErrorEndsStream(
    userMessage: string, promptFits: bool, first: ParserRun,
    retrievalEnabled: bool, toolName: string, toolSucceeds: bool,
    followUpFits: bool, second: ParserRun)
    ensures var ps := ToolsAnswer(userMessage, promptFits, first, retrievalEnabled, toolName, toolSucceeds, followUpFits, second);
      && ps != []
      && (forall i :: 0 <= i < |ps| - 1 ==> !IsError(ps[i]))
      && (!IsError(ps[|ps| - 1]) ==> exists i :: 0 <= i < |ps| && ps[i].Piece?)
  {
    var p := FirstPassOf(first);
    if userMessage != "" && promptFits && p.raised.None? && p.shown == [] && p.decision.Some? && toolSucceeds {
      FollowUpShape(RetrievesDocs(p.decision.value, retrievalEnabled, toolName), followUpFits, second);
    }
  }

  /** Only non-empty answer pieces reach the client. */
  lemma PiecesNonEmpty(
    userMessage: string, promptFits: bool, first: ParserRun,
    retrievalEnabled: bool, toolName: string, toolSucceeds: bool,
    followUpFits: bool, second: ParserRun)
    ensures var ps := ToolsAnswer(userMessage, promptFits, first, retrievalEnabled, toolName, toolSucceeds, followUpFits, second);
      forall i :: 0 <= i < |ps| && ps[i].Piece? ==> ps[i].text != ""
  {
  }

  /** An answer already streamed in the first model output is final: no
      tool runs and nothing follows it. */
  lemma StreamedAnswerSkipsTool(
    userMessage: string, promptFits: bool, first: ParserRun,
    retrievalEnabled: bool, toolName: string, toolSucceeds: bool,
    followUpFits: bool, second: ParserRun)
    requires userMessage != "" && promptFits
    requires FirstPassOf(first).raised.None? && FirstPassOf(first).shown != []
    ensures ToolsAnswer(userMessage, promptFits, first, retrievalEnabled, toolName, toolSucceeds, followUpFits, second)
         == FirstPassOf(first).shown
  {
  }

  /** Retrieved documents are yielded only when retrieval is enabled and
      the decision names the retrieval tool, after a successful tool call
      and before any follow-up piece. */
  lemma DocsOnlyForRetrievalTool(
    userMessage: string, promptFits: bool, first: ParserRun,
    retrievalEnabled: bool, toolName: string, toolSucceeds: bool,
    followUpFits: bool, second: ParserRun)
    ensures var ps := ToolsAnswer(userMessage, promptFits, first, retrievalEnabled, toolName, toolSucceeds, followUpFits, second);
      var p := FirstPassOf(first);
      RetrievalDocs in ps <==>
        && userMessage != "" && promptFits && p.raised.None? && p.shown == [] && p.decision.Some?
        && toolSucceeds && RetrievesDocs(p.decision.value, retrievalEnabled, toolName)
  {
    var ps := ToolsAnswer(userMessage, promptFits, first, retrievalEnabled, toolName, toolSucceeds, followUpFits, second);
    var p := FirstPassOf(first);
    if userMessage != "" && promptFits && p.raised.None? && p.shown == [] && p.decision.Some? && toolSucceeds {
      var shown := Shown(second.items);
      if RetrievesDocs(p.decision.value, retrievalEnabled, toolName) {
        assert ps[0] == RetrievalDocs;
      } else {
        assert forall i :: 0 <= i < |shown| ==> shown[i] != RetrievalDocs;
      }
    } else if p.raised.Some? {
      assert forall i :: 0 <= i < |p.shown| ==> p.shown[i] != RetrievalDocs;
    }
  }

  lemma DecisionAtNone(items: seq<ParserItem>)
    requires forall i :: 0 <= i < |items| ==> items[i].AnswerPiece?
    ensures DecisionAt(items) == |items|
  {
  }

  lemma DecisionAtLast(items: seq<ParserItem>, d: ParserItem)
    requires forall i :: 0 <= i < |items| ==> items[i].AnswerPiece?
    requires d.ChatModelOut?
    ensures DecisionAt(items + [d]) == |items|
    ensures (items + [d])[..|items|] == items
  {
    var all := items + [d];
    assert all[|items|] == d;
    assert forall j :: 0 <= j < |items| ==> all[j] == items[j];
  }

  /** Read from the parser, the first loop always ends with the decision
      or the parser's exception: the "finished without final output
      parsing" error cannot occur, and the client sees exactly the parser's
      non-empty pieces. */
  lemma ParsedOutputHasDecision(tokens: seq<string>, extract: string -> Option<map<string, string>>)
    ensures var p := FirstPassOf(ParseStream(tokens, extract));
      && (p.decision.Some? || p.raised.Some?)
      && p.shown == Shown(Feed(tokens).items)
      && (p.decision.Some? ==> p.decision.value.raw == Concat(tokens))
  {
    ParserProperties.ParseStreamEnds(tokens, extract);
    var run := ParseStream(tokens, extract);
    var pieces := Feed(tokens).items;
    if run.error.None? {
      DecisionAtLast(pieces, run.items[|run.items| - 1]);
    } else {
      DecisionAtNone(pieces);
    }
  }

  /** The "finished without final output parsing" error occurs exactly
      when the first output ends with neither a decision nor an exception
      and streamed nothing. */
  lemma NoFinalOutputExactly(
    userMessage: string, promptFits: bool, first: ParserRun,
    retrievalEnabled: bool, toolName: string, toolSucceeds: bool,
    followUpFits: bool, second: ParserRun)
    ensures var p := FirstPassOf(first);
      StreamError(NoFinalOutput) in ToolsAnswer(userMessage, promptFits, first, retrievalEnabled, toolName, toolSucceeds, followUpFits, second)
      <==> userMessage != "" && promptFits && p.decision.None? && p.raised.None? && p.shown == []
  {
    var p := FirstPassOf(first);
    assert forall i :: 0 <= i < |p.shown| ==> p.shown[i].Piece?;
    if userMessage != "" && promptFits && p.raised.None? && p.shown == [] && p.decision.Some? && toolSucceeds {
      FollowUpNeverNoFinalOutput(RetrievesDocs(p.decision.value, retrievalEnabled, toolName), followUpFits, second);
    }
  }

  lemma FollowUpNeverNoFinalOutput(docs: bool, followUpFits: bool, second: ParserRun)
    ensures StreamError(NoFinalOutput) !in FollowUp(docs, followUpFits, second)
  {
    var shown := Shown(second.items);
    assert forall i :: 0 <= i < |shown| ==> shown[i].Piece?;
  }

  /** Hence a tool-enabled answer read from the parser never fails with
      `NoFinalOutput`. */
  lemma NoFinalOutputUnreachable(
    userMessage: string, promptFits: bool, tokens: seq<string>, extract: string -> Option<map<string, string>>,
    retrievalEnabled: bool, toolName: string, toolSucceeds: bool,
    followUpFits: bool, second: ParserRun)
    ensures StreamError(NoFinalOutput) !in
      ToolsAnswer(userMessage, promptFits, ParseStream(tokens, extract), retrievalEnabled, toolName, toolSucceeds, followUpFits, second)
  {
    var first := ParseStream(tokens, extract);
    ParsedOutputHasDecision(tokens, extract);
    NoFinalOutputExactly(userMessage, promptFits, first, retrievalEnabled, toolName, toolSucceeds, followUpFits, second);
  }
}
