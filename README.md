# Chat message processing: a verified model

This project models the core of Danswer's chat answer pipeline,
`backend/danswer/chat/process_message.py`. It covers these parts:

- **Chain resolver.** `_create_chat_chain` turns the stored messages of a
  chat session into the mainline conversation. It starts at the parentless
  first message and follows latest-child pointers.
- **Token budgeter.** `_find_last_index` and
  `_drop_messages_history_overflow` drop the oldest history until a prompt
  fits the model's input budget. The contextless answer uses the same
  budgeter to choose its window.
- **Citation filter.** `extract_citations_from_stream` rewrites citations
  `[n]` in the streamed answer into links `[[n]](url)`. It holds back text
  that may still become a citation.
- **Action parser.** `_parse_embedded_json_streamed_response` reads the
  model's streamed JSON action. It streams the final answer's
  `action_input` as it arrives, then yields the parsed decision.
- **Tool-enabled consumer.** The part of `llm_tools_enabled_chat_answer`
  that reads the parser covers the first pass, the tool call, the
  follow-up pass and the exception handler.
- **Flow selector.** `generate_message_response` chooses one of four
  answer flows.

The loops of the source are Dafny methods. Each is proved equal to a
specification function, and the promised properties are then proved about
those functions as lemmas:

- `FindLastIndex`;
- `CreateChatChain`;
- `ProcessToken` and `ExtractCitationsFromStream`;
- `ParseToken` and `ParseEmbeddedJsonStreamedResponse`;
- `ReadDecision`, `StreamFollowUp` and `ToolsEnabledChatAnswer`.

Code that only computes a value is modelled as functions. This covers the
window construction, the flow selector and the final JSON check.

The parts the model does not compute itself are taken as inputs:

| Stands for | Input |
|---|---|
| The language model's token stream | a `seq<string>` |
| The tokenizer | token counts |
| Loading messages from the database | a `seq<ChatMessage>` in fetch order |
| `extract_embedded_json` | a function parameter returning `Option<map<string, string>>`; `None` means it raised |
| Whether the prompts fit, and whether the tool call succeeds | booleans |
| `DANSWER_TOOL_NAME` | a `toolName` parameter; the file uses it but neither defines nor imports it |

For the citation filter, the model has two rule sets:

- `AsWritten` is what the code does.
- `Corrected` is what its comments evidently intend.

The properties and the differences between the two are proved for both.
They are listed under "Findings".

## Model

| member | source | states |
|---|---|---|
| TokenBudget.CutIndex | backend/danswer/chat/process_message.py:148-155 | The backward scan stops at the first suffix (from the back) that is over budget. Every later suffix fits, and the suffix one earlier does not. |
| TokenBudget.LastIndex | backend/danswer/chat/process_message.py:143-158 | Succeeds exactly when the list is non-empty and its last count fits. Otherwise it fails with "last message alone is too large". On success the index is inside the list and every suffix from it fits. The suffix one earlier does not. |
| TokenBudget.FindLastIndex | backend/danswer/chat/process_message.py:143-158 | The loop with its running sum and break returns exactly `LastIndex`. |
| TokenBudget.LastIndexLongestFit | backend/danswer/chat/process_message.py:146-147 | With non-negative counts, every suffix longer than the kept one is over budget. The kept suffix is the longest that fits. |
| TokenBudget.SumSuffixMonotone | backend/danswer/chat/process_message.py:148-155 | With non-negative counts, a longer suffix never has a smaller total. |
| TokenBudget.DropHistoryOverflow | backend/danswer/chat/process_message.py:202-231 | A count list whose length differs from the history's fails with the mismatch error. Otherwise the result succeeds iff the final message alone fits. A successful prompt ends with the final message. |
| TokenBudget.WindowCut | backend/danswer/chat/process_message.py:221-227 | When the final message fits, the cut falls at or before the end of the history iff the system and final messages fit together. The history suffix kept then fits with both, and one message more would not. |
| TokenBudget.DropHistoryOverflowWindow | backend/danswer/chat/process_message.py:210-231 | A successful prompt is the optional system message, a suffix of the history, then the final message. The system message is kept iff it is given and fits together with the final message. If it is dropped, all history goes with it. The kept messages fit, and with the system message kept no longer history suffix would. |
| TokenBudget.ContextlessWindow | backend/danswer/chat/process_message.py:297-315 | A successful window ends with the last message as a prompt. When there is a system text, the window starts with it as a system message. |
| TokenBudget.ContextlessWithoutSystem | backend/danswer/chat/process_message.py:304-311 | Without a system text, the window succeeds iff there are messages and the last one fits. A failure is always the budgeter's error, so the "too long" error never fires. |
| TokenBudget.ContextlessWithSystem | backend/danswer/chat/process_message.py:297-315 | With a system text, the budgeter's error means the system text alone is over budget. "Last user message is too long" means the system text fits but not together with the last message. Success means both fit. |
| TokenBudget.ContextlessWindowFits | backend/danswer/chat/process_message.py:307-315 | A successful window is its head followed by a non-empty suffix of the messages, and the suffix's counts fit the budget. |
| ChatChain.IdMap | backend/danswer/chat/process_message.py:63 | Every fetched message's id is a key, and each key maps to a message with that id. |
| ChatChain.IdMapLast | backend/danswer/chat/process_message.py:63 | Each key maps to the last fetched message with that id: a later duplicate replaces an earlier one. |
| ChatChain.WalkFuelMonotone | backend/danswer/chat/process_message.py:75-87 | A walk that ends with some fuel gives the same result with more fuel. |
| ChatChain.WalkStep | backend/danswer/chat/process_message.py:76-87 | A message with a child found in the map takes one lookup. The rest of the walk continues from that child. |
| ChatChain.WalkAdvance | backend/danswer/chat/process_message.py:76-87 | One pass of the loop keeps the loop invariant: the visited messages, followed by the walk still to do, are the whole walk. |
| ChatChain.WalkReaches | backend/danswer/chat/process_message.py:77-78 | A loop that stops at a message without a child has reached the end of the walk with exactly the messages visited. |
| ChatChain.WalkDangles | backend/danswer/chat/process_message.py:79-85 | A loop that stops at a pointer to a missing message has followed a dangling walk. |
| ChatChain.WalkFuelIndependent | backend/danswer/chat/process_message.py:75-87 | Two ended walks from the same message agree, whatever fuel each had. |
| ChatChain.SpecFromWalk | backend/danswer/chat/process_message.py:61-92 | Once the walk from the root ends, with any fuel, the resolver's specification is the result of that walk. |
| ChatChain.ChatChainSpec | backend/danswer/chat/process_message.py:65-72 | No messages gives "No messages in Chat Session". A first message with a parent gives "Invalid root message". |
| ChatChain.CreateChatChain | backend/danswer/chat/process_message.py:56-92 | The resolver loop returns exactly `ChatChainSpec`, whenever the walk from the root ends. |
| ChatChain.FollowMainline | backend/danswer/chat/process_message.py:74-92 | The loop from the root returns exactly the result of the finished walk: a missing child is the broken-chain error, and the end of the path gives the last message and the history before it. |
| ChatChain.ChooseFuel | backend/danswer/chat/process_message.py:75-87 | A walk that ends has some fuel with which `WalkFrom` finishes. |
| ChatChain.WalkIsLinked | backend/danswer/chat/process_message.py:75-87 | A finished walk follows latest-child pointers through the id map. A reached walk ends at a message without a child. A dangling one ends at a message whose child id is missing. |
| ChatChain.LinkedIsWalk | backend/danswer/chat/process_message.py:75-87 | Conversely, a latest-child path that ends at a message without a child is what the walk reaches. |
| ChatChain.LinkedDanglesIsWalk | backend/danswer/chat/process_message.py:75-87 | A latest-child path whose last message points to a missing id is what the walk reports as dangling. |
| ChatChain.ChatChainOkIsMainline | backend/danswer/chat/process_message.py:60-92 | A successful result is the last message of the latest-child path from the root, with the path before it as history. The root is not included. |
| ChatChain.WellFormedChainResolves | backend/danswer/chat/process_message.py:60-92 | A session with a parentless first message and a non-empty latest-child path that ends at a message without a child resolves to that path. |
| ChatChain.DanglingIsBroken | backend/danswer/chat/process_message.py:60-92 | A session with a parentless first message whose latest-child path reaches a child id missing from the session resolves to "Invalid message chain". |
| ChatChain.NoHistoryIsChildless | backend/danswer/chat/process_message.py:77-90 | The walk from a root ends in "Could not trace chat message history" iff the root has no child. |
| ChatChain.BrokenIsDangling | backend/danswer/chat/process_message.py:77-90 | A walk that ends in "Invalid message chain" followed latest-child links to a child id missing from the session. |
| ChatChain.ChatChainErrors | backend/danswer/chat/process_message.py:77-90 | "Could not trace chat message history" occurs iff the root has no child. "Invalid message chain" occurs iff some latest-child path from the root reaches a child id missing from the session, and the walked path is such a path. |
| Citations.TrailingDigits | backend/danswer/chat/process_message.py:252-253 | The trailing digit run fits in the string. |
| Citations.TrailingDigitsRun | backend/danswer/chat/process_message.py:252-253 | The trailing run is all digits and is maximal: the character before it is not a digit. |
| Citations.LeadingDigitsRun | backend/danswer/chat/process_message.py:255-259 | The leading run is all digits and is maximal: the character after it is not a digit. |
| Citations.PossibleCitationMatchesPattern | backend/danswer/chat/process_message.py:252-253 | The executable test agrees with `(\[\d*$)`: a "[" followed only by digits up to the end, or up to a final newline. |
| Citations.OpenTailRef | backend/danswer/chat/process_message.py:252-253 | An open tail exists iff some "[" is followed by nothing but digits. |
| Citations.FirstCitationFrom | backend/danswer/chat/process_message.py:255-256 | A found index holds a citation `[digits]`. |
| Citations.FirstCitationLeftmost | backend/danswer/chat/process_message.py:255-256 | The search finds the leftmost citation and reports none exactly when there is none: the semantics of `re.search(r"\[(\d+)\]")`. |
| Citations.SubstituteIsReplaceFirst | backend/danswer/chat/process_message.py:263-264 | The one-pass substitution equals replacing the first "[", then the first "]", each with count=1. |
| Citations.RewriteIsTwoSubstitutions | backend/danswer/chat/process_message.py:263-264 | The rewrite of a buffer is `re.sub("\[", "[[", count=1)` followed by `re.sub("]", "]](link)", count=1)`. |
| Citations.Flush | backend/danswer/chat/process_message.py:275-280 | Yielding the buffer emits one fragment, empties the buffer and never fails. |
| Citations.ProcessToken | backend/danswer/chat/process_message.py:246-280 | One pass of the loop body returns exactly the `CitationStep` of the source's rules. |
| Citations.ApplyCitation | backend/danswer/chat/process_message.py:258-264 | For the first citation of the buffer, the branch raises exactly when `Resolve` raises. Otherwise the buffer it returns is the one `Resolve` yields. |
| Citations.FlushBuffer | backend/danswer/chat/process_message.py:275-280 | The yield at the end of a pass returns exactly `Flush`. |
| Citations.ExtractCitationsFromStream | backend/danswer/chat/process_message.py:234-286 | The generator yields exactly `ExtractCitations` and raises exactly when it does. With no links, the tokens pass unchanged. |
| CitationProperties.RewriteCitation | backend/danswer/chat/process_message.py:263-264 | When no bracket precedes the citation, the two substitutions turn `[ds]` into `[[ds]](link)` and leave the rest as it was. |
| CitationProperties.RewriteAtCitation | backend/danswer/chat/process_message.py:263-264 | The corrected substitution rewrites the citation found, whatever precedes it. |
| CitationProperties.BufferedCitationRewritten | backend/danswer/chat/process_message.py:258-264 | A citation whose number is looked up and whose link is truthy is yielded in link form. |
| CitationProperties.ResolveLinked | backend/danswer/chat/process_message.py:258-264 | The same, for the first citation of any buffer. |
| CitationProperties.BufferedCitationLiteral | backend/danswer/chat/process_message.py:258-262 | A citation numbered 0 or above the lookup bound, or whose link is falsy, is yielded literally. |
| CitationProperties.ResolveLiteral | backend/danswer/chat/process_message.py:258-262 | The same, for the first citation of any buffer. |
| CitationProperties.BufferedCitationRaises | backend/danswer/chat/process_message.py:241-261 | A citation numbered above len(links) but within the bound indexes past the links. The pass raises and yields nothing. |
| CitationProperties.ResolveRaises | backend/danswer/chat/process_message.py:241-261 | The same, for the first citation of any buffer. |
| CitationProperties.PartialCitationHeld | backend/danswer/chat/process_message.py:252-272 | With no complete citation, a buffer ending in "[" and digits is held back, and any other buffer is yielded. |
| CitationProperties.FlushReachable | backend/danswer/chat/process_message.py:275-280 | After a yield, a withheld "[" comes with an empty buffer. Nothing is lost: the yielded text plus what is pending is the buffer. |
| CitationProperties.StepReachable | backend/danswer/chat/process_message.py:244-280 | Every pass that does not raise leads to such a state. |
| CitationProperties.BufferAfterWithheldBracket | backend/danswer/chat/process_message.py:246-250 | In such a state, `curr_segment += "[" + curr_segment` only puts the withheld "[" in front of the token. |
| CitationProperties.EndOfStream | backend/danswer/chat/process_message.py:282-286 | The source's end yields the buffer verbatim and never the withheld "[": the `"[" + curr_segment` branch is dead. The corrected end yields all pending text. |
| CitationProperties.StepConservesText | backend/danswer/chat/process_message.py:244-280 | With no truthy link, a pass yields exactly the text it took in, less what it keeps pending. |
| CitationProperties.RunConservesText | backend/danswer/chat/process_message.py:244-286 | Over the rest of a stream with no truthy link, the corrected filter yields exactly the pending text and the tokens. The source may lose one final "[". |
| CitationProperties.CitationsConserveText | backend/danswer/chat/process_message.py:234-286 | With no truthy link and no exception, the source yields the input text, save possibly a final withheld "[". |
| CitationProperties.CorrectedCitationsConserveText | backend/danswer/chat/process_message.py:234-286 | With no truthy link, the corrected filter never raises and yields exactly the input text. |
| CitationProperties.StepRaisesAtBound | backend/danswer/chat/process_message.py:241-261 | A pass of the source raises iff the buffer's first citation is numbered len(links) + 1. |
| CitationProperties.CorrectedRunNeverFails | backend/danswer/chat/process_message.py:241-261 | With the bound at most len(links), no pass raises. |
| CitationProperties.CorrectedCitationsNeverFail | backend/danswer/chat/process_message.py:241 | The corrected filter never raises. |
| CitationProperties.Singles | backend/danswer/chat/process_message.py:244 | Splitting a text into one-character tokens gives as many tokens as characters. |
| CitationProperties.ConcatSingles | backend/danswer/chat/process_message.py:244 | The one-character tokens concatenate back to the text. |
| CitationProperties.PlainCharsPass | backend/danswer/chat/process_message.py:250-280 | Characters other than "[", one per token, are yielded one by one. |
| CitationProperties.OneDigitCitationPasses | backend/danswer/chat/process_message.py:250-280 | A one-digit citation arriving as "[", digit, "]" is held until it closes, then yielded in link form. |
| CitationProperties.SegmentPass | backend/danswer/chat/process_message.py:250-280 | Plain characters followed by a one-digit citation, one character per token, are yielded as the characters and then the link. |
| CitationProperties.CharTokensRewriteEveryCitation | backend/danswer/chat/process_message.py:244-286 | With one-character tokens, a text whose citations all have one digit, all select a truthy link within the citation bound, and whose only "[" characters open those citations has every citation rewritten into link form, and nothing raises. |
| CitationProperties.CharTokensExample | backend/danswer/chat/process_message.py:234-286 | "See [1] and [2]." in one-character tokens, with two links, yields "See [[1]](u1) and [[2]](u2).". |
| CitationProperties.SingleTokenRun | backend/danswer/chat/process_message.py:244-286 | The filter over a single token is one pass followed by the end of the stream. |
| CitationProperties.SingleTokenRewritten | backend/danswer/chat/process_message.py:255-264 | A whole text given as one token has only its first citation rewritten. The rest passes unchanged. |
| CitationProperties.WholeTokenExample | backend/danswer/chat/process_message.py:255-264 | "[1] [2]" as one token yields "[[1]](u) [2]": the second citation stays literal. |
| CitationProperties.BoundRaises | backend/danswer/chat/process_message.py:241-261 | With one link, "[2]" raises IndexError. |
| CitationProperties.BoundCorrected | backend/danswer/chat/process_message.py:241 | The corrected filter yields "[2]" literally. |
| CitationProperties.HeldBracketLost | backend/danswer/chat/process_message.py:275-286 | "[1][" with a falsy link yields only "[1]": the withheld "[" is lost. |
| CitationProperties.HeldBracketCorrected | backend/danswer/chat/process_message.py:282-286 | The corrected filter yields "[1]" and then "[". |
| CitationProperties.RewriteStrayBracket | backend/danswer/chat/process_message.py:263-264 | When a "]" precedes the first citation, that "]" receives the link and the citation only gains a "[". |
| CitationProperties.StrayBracketTakesLink | backend/danswer/chat/process_message.py:255-264 | The same, for the whole filter over one token. |
| CitationProperties.StrayBracketRewritten | backend/danswer/chat/process_message.py:263-264 | "x] [1]" yields "x]](u) [[1]". |
| CitationProperties.StrayBracketCorrected | backend/danswer/chat/process_message.py:263-264 | The corrected filter yields "x] [[1]](u)". |
| ActionParser.Remove | backend/danswer/chat/process_message.py:109-115 | After `replace(c, "")` the result holds no `c` and is no longer than the input. |
| ActionParser.ParseToken | backend/danswer/chat/process_message.py:104-129 | One pass of the loop body returns exactly `Step`, the generator's state and pieces after the token. |
| ActionParser.ParseEmbeddedJsonStreamedResponse | backend/danswer/chat/process_message.py:95-139 | The generator yields exactly `ParseStream`: the fold of `Step` over the tokens, then the final JSON check. |
| ParserProperties.LowerAppend | backend/danswer/chat/process_message.py:109 | Lower-casing distributes over concatenation. |
| ParserProperties.RemoveAppend | backend/danswer/chat/process_message.py:109-115 | Removing a character distributes over concatenation. |
| ParserProperties.ContainsAppend | backend/danswer/chat/process_message.py:109-113 | A substring stays present when text is appended. |
| ParserProperties.MarkersPersist | backend/danswer/chat/process_message.py:107-115 | Text arriving later never hides a marker already seen in the output. |
| ParserProperties.CutPieceQuoteFree | backend/danswer/chat/process_message.py:120-122 | The hold cut at its first quote holds no unescaped quote. |
| ParserProperties.StepConsistent | backend/danswer/chat/process_message.py:103-129 | Each pass keeps the generator invariant. The invariant says the output is the text read so far and the final-answer flag is exactly the marker test. Streaming starts only once both markers are seen, with an empty first piece. No piece holds an unescaped quote. |
| ParserProperties.FeedConsistent | backend/danswer/chat/process_message.py:103-129 | The invariant holds after every prefix of the tokens. |
| ParserProperties.ModelOutputIsConcat | backend/danswer/chat/process_message.py:104 | `model_output` is the concatenation of the tokens read. |
| ParserProperties.NoPieceBeforeMarkers | backend/danswer/chat/process_message.py:107-119 | No piece is yielded before both markers are in the output. The first piece is empty. |
| ParserProperties.NothingAfterClosingQuote | backend/danswer/chat/process_message.py:120-129 | Once the closing quote has been found, later tokens yield nothing. |
| ParserProperties.StreamedToken | backend/danswer/chat/process_message.py:120-129 | While streaming, a token is passed on whole, or up to its first quote when it holds an unescaped one. The stream closes iff it does. |
| ParserProperties.PiecesHaveNoUnescapedQuote | backend/danswer/chat/process_message.py:120-128 | Every yielded piece is free of unescaped quotes. |
| ParserProperties.ParseStreamEnds | backend/danswer/chat/process_message.py:131-139 | The generator succeeds iff the extraction gives both "action" and "action_input". It raises the JSON error iff the extraction fails. On success the decision comes last and carries the raw output and both values. On failure only the pieces were yielded. |
| ParserProperties.OneDecisionAtEnd | backend/danswer/chat/process_message.py:131-139 | At most one decision is yielded, and only as the last item. |
| ParserProperties.OtherActionYieldsOnlyDecision | backend/danswer/chat/process_message.py:107-139 | An output without the final-answer marker yields no piece, only the decision, if there is one. |
| ParserProperties.HeaderStarts | backend/danswer/chat/process_message.py:113-129 | A first token that completes both markers yields one empty piece and starts streaming. |
| ParserProperties.StreamedWhole | backend/danswer/chat/process_message.py:120-129 | While streaming, a token without an unescaped quote is yielded whole. |
| ParserProperties.StreamedClose | backend/danswer/chat/process_message.py:120-129 | While streaming, a token with an unescaped quote is yielded up to its first quote and closes the stream. |
| ParserProperties.StreamTwo | backend/danswer/chat/process_message.py:113-129 | After the header, two quote-free tokens are streamed whole. |
| ParserProperties.StreamTwoThenClose | backend/danswer/chat/process_message.py:113-129 | A third token starting with a quote then closes the stream with an empty piece. |
| ParserProperties.EscapedQuotesTokens | backend/danswer/chat/process_message.py:120 | `he said ` and `\"hi\"` hold no unescaped quote, and `"}` starts with one. |
| ParserProperties.EscapedQuotesStream | backend/danswer/chat/process_message.py:113-129 | Escaped quotes inside a token do not end the stream. The pieces are "", `he said `, `\"hi\"` with its escapes kept, then "". |
| ParserProperties.SplitEscapeTokens | backend/danswer/chat/process_message.py:120 | `he said \` holds no quote. `"hi"` starts with a quote that is unescaped within its own token. |
| ParserProperties.SplitEscapeEndsStream | backend/danswer/chat/process_message.py:120-129 | An escaped quote whose backslash came in the previous token ends the stream, because the quote test sees only the current hold. |
| Strategy.GenerateMessageResponse | backend/danswer/chat/process_message.py:572-617 | The contextless flow is chosen iff there is no persona. The tool flow is chosen iff the persona has tools, or has retrieval while the tool prompt is forced. The contextual flow requires retrieval and no forcing. |
| Strategy.ToolsSelectToolFlow | backend/danswer/chat/process_message.py:609-617 | A persona with tools always gets the tool-enabled flow. |
| Strategy.NoRetrievalNoToolsIsContextless | backend/danswer/chat/process_message.py:589-593 | A persona without retrieval and without tools is answered contextlessly, with its system text. |
| Strategy.ForceMattersOnlyForRetrievalWithoutTools | backend/danswer/chat/process_message.py:595-605 | The force switch changes the flow only for a persona with retrieval and no tools. For that persona it switches from the contextual flow to the tool flow. |
| Strategy.ContextlessWithPersonaExactly | backend/danswer/chat/process_message.py:589-593 | The contextless flow with a system text is chosen exactly for a persona without retrieval and without tools. |
| ToolAnswer.Shown | backend/danswer/chat/process_message.py:489-492 | Only non-empty answer pieces are passed to the client, and never more packets than items. |
| ToolAnswer.DecisionAt | backend/danswer/chat/process_message.py:494-496 | The first loop stops at the first decision, and every item before it is a piece. |
| ToolAnswer.ShownSnoc | backend/danswer/chat/process_message.py:489-492 | The shown packets of a longer prefix extend those of the shorter one by the next item's packet. |
| ToolAnswer.ReadDecision | backend/danswer/chat/process_message.py:486-496 | The first loop returns exactly the shown pieces and the decision of `FirstPassOf`, or the parser's exception when there is no decision. The streamed flag is set iff something was shown. |
| ToolAnswer.StreamFollowUp | backend/danswer/chat/process_message.py:560-563 | The second loop shows exactly the non-empty pieces of the follow-up output. |
| ToolAnswer.ToolFollowUp | backend/danswer/chat/process_message.py:503-566 | From the tool call on, the packets are exactly `FollowUp`. |
| ToolAnswer.ToolsEnabledChatAnswer | backend/danswer/chat/process_message.py:455-569 | The flow inside the `try` of 455-569 yields exactly `ToolsAnswer`. That covers the empty-message and prompt errors, the first pass, the early return after a streamed answer, the missing-decision error, the retrieval or tool call, the follow-up and the exception handler. |
| ToolAnswer.FollowUpShape | backend/danswer/chat/process_message.py:520-569 | The follow-up yields something. An error can only be the last packet, and a follow-up without an error has streamed a piece. |
| ToolAnswer.ErrorEndsStream | backend/danswer/chat/process_message.py:455-569 | The whole flow yields something. A failure ends it with one error packet, and a flow that returns normally has streamed an answer piece. |
| ToolAnswer.PiecesNonEmpty | backend/danswer/chat/process_message.py:489-492 | Every answer piece the flow yields is non-empty. |
| ToolAnswer.StreamedAnswerSkipsTool | backend/danswer/chat/process_message.py:498-499 | An answer already streamed in the first pass is final: no tool runs and nothing follows it. |
| ToolAnswer.DocsOnlyForRetrievalTool | backend/danswer/chat/process_message.py:501-527 | Retrieved documents are yielded iff the first pass gave a decision without streaming and the tool call succeeded. In addition, retrieval must be enabled and the decision must name the retrieval tool, case-insensitively. |
| ToolAnswer.DecisionAtNone | backend/danswer/chat/process_message.py:494-496 | Items that are all pieces hold no decision. |
| ToolAnswer.DecisionAtLast | backend/danswer/chat/process_message.py:494-496 | Pieces followed by one decision stop the first loop at that decision. |
| ToolAnswer.ParsedOutputHasDecision | backend/danswer/chat/process_message.py:489-496 | Read from the parser, the first loop always ends with a decision or the parser's exception. The client sees exactly the parser's non-empty pieces, and the decision carries the whole output. |
| ToolAnswer.NoFinalOutputExactly | backend/danswer/chat/process_message.py:498-502 | "Model output finished without final output parsing" occurs iff the message and prompt are valid and the first pass ended with neither a decision nor an exception, having shown nothing. |
| ToolAnswer.FollowUpNeverNoFinalOutput | backend/danswer/chat/process_message.py:520-566 | The follow-up never raises that error. |
| ToolAnswer.NoFinalOutputUnreachable | backend/danswer/chat/process_message.py:486-502 | With the first output read by the parser, that error cannot occur. |

## Left out

- **Not modelled:** database access, the tokenizer, the language model,
  document retrieval, ACL filters and prompt templating. The model stands
  in for them:
  - the session's messages, in fetch order;
  - token counts;
  - token sequences;
  - booleans: `promptFits` and `followUpFits` for whether
    `_drop_messages_history_overflow` succeeds, and `toolSucceeds` for
    `call_tool`.
- `llm_contextual_chat_answer`, `danswer_chat_retrieval` and
  `stream_chat_packets`: these are outside the modelled core. The selector
  only names the flow it chooses.
- `extract_embedded_json` is a parameter. Its JSON parsing is not part of
  this model.
- `has_unescaped_quote` lives in a different file, which is not part of this
  model. It is modelled as a match of the pattern `(?<!\\)"`.
- `str.lower()` is modelled on ASCII letters, and `\d` on the ASCII digits.
  Unicode case mapping and Unicode digits are not modelled.
- `ExtractCitations`: does not model escape sequences in the replacement
  template of `re.sub` (a backslash in a link). The link is inserted as
  written.
- `CreateChatChain`: requires that the walk from the root ends
  (`ChainWalkHalts`). The source has no cycle guard and loops forever on a
  cyclic latest-child chain, so that case is not modelled.
- `ToolsEnabledChatAnswer`: does not model an exception raised by the
  language model, whether from `get_default_llm()`, from `llm.stream` or in
  the middle of the stream. `Failure` has no case for it. In the source the
  pieces already yielded stay yielded, and one `StreamingError` follows.
- `ToolsEnabledChatAnswer`: does not carry `str(e)` in the error packet. It
  names the kind of failure instead. Logging is left out.
- `ToolsEnabledChatAnswer`: takes whether each prompt fits as a boolean,
  rather than computing the windows. The windows themselves are
  `DropHistoryOverflow`.
- `DANSWER_TOOL_NAME` is used by the source file but neither defined nor
  imported there. It is the parameter `toolName`.
- `ParserProperties.EscapedQuotesStream` and `SplitEscapeEndsStream`: take
  the JSON header as a hypothesis that it completes both markers, rather
  than spelling it out literally.
- `CharTokensExample`: uses one-digit citations.
- `CharTokensRewriteEveryCitation`: covers only texts whose citations have one
  digit, whose citations all select a truthy link within the citation bound,
  and that contain no other "[". Multi-digit citations, unlinked citations and
  stray brackets are left to the single-step lemmas.
- `_find_last_index`'s default argument `GEN_AI_MAX_INPUT_TOKENS` is the
  parameter `maxTokens`.
- Three behaviours of the code that a reader might expect to be otherwise;
  the model keeps the code's behaviour:
  - A text arriving as one token has only its first citation rewritten
    (`WholeTokenExample`).
  - An escaped quote split across two tokens ends the stream
    (`SplitEscapeEndsStream`).
  - The first streamed piece is always empty (`NoPieceBeforeMarkers`).

## Findings

| source | as written | input that shows it | evidently intended | confidence | as-written member | corrected member |
|---|---|---|---|---|---|---|
| backend/danswer/chat/process_message.py:241 | `max_citation_num = len(links) + 1` accepts citation number len(links) + 1, and `links[numerical_value - 1]` then raises IndexError | tokens ["[2]"], links [Some("u")] | citation numbers 1..len(links), with others left literal | not executed | CitationProperties.BoundRaises | CitationProperties.BoundCorrected |
| backend/danswer/chat/process_message.py:275-286 | a "[" withheld by the last pass is never yielded: the end of the stream tests `curr_segment`, which is empty | tokens ["[1]["], links [None] | the withheld "[" is yielded at the end | not executed | CitationProperties.HeldBracketLost | CitationProperties.HeldBracketCorrected |
| backend/danswer/chat/process_message.py:263-264 | the substitutions rewrite the first "[" and the first "]" of the buffer, not the citation that was found | tokens ["x] [1]"], links [Some(u)] | the citation found is rewritten to `[[1]](u)` | not executed | CitationProperties.StrayBracketRewritten | CitationProperties.StrayBracketCorrected |
