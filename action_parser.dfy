/** The tool-action stream parser, `_parse_embedded_json_streamed_response`:
    the language model answers with a JSON object `{"action": ...,
    "action_input": ...}` streamed token by token. Once the output shows a
    final-answer action and the start of its input string, the tokens are
    streamed on as answer pieces until the closing quote; at the end the
    whole output is parsed and the decision is yielded, or the parser
    raises. */
module ActionParser {
  import opened Common

  /** `DanswerChatModelOut`: the raw model output and the two action values. */
  datatype ModelOut = ModelOut(raw: string, action: string, actionInput: string)

  /** What the generator yields. */
  datatype ParserItem = AnswerPiece(piece: string) | ChatModelOut(out: ModelOut)

  datatype ParserError =
    | NoEmbeddedJson       // `extract_embedded_json` raised
    | MissingActionValues  // "Model did not provide all required action values"

  /** Everything the generator yields, then the exception it raises, if any. */
  datatype ParserRun = ParserRun(items: seq<ParserItem>, error: Option<ParserError>)

  // ---------------------------------------------------------------------
  // Marker detection

  /** `str.lower` on ASCII letters. */
  function LowerChar(c: char): char {
    if 'A' <= c <= 'Z' then (c as int + 32) as char else c
  }

  function Lower(s: string): (r: string)
    ensures |r| == |s|
    ensures forall i :: 0 <= i < |s| ==> r[i] == LowerChar(s[i])
  {
    seq(|s|, i requires 0 <= i < |s| => LowerChar(s[i]))
  }

  /** `str.replace(c, "")`. */
  function Remove(s: string, c: char): (r: string)
    ensures c !in r
    ensures |r| <= |s|
  {
    if s == [] then ""
    else (if s[0] == c then "" else [s[0]]) + Remove(s[1..], c)
  }

  /** `sub` occurs in `s` at index `i`. */
  predicate OccursAt(s: string, sub: string, i: int) {
    0 <= i <= |s| - |sub| && s[i..i + |sub|] == sub
  }

  /** Python's `sub in s`. */
  predicate Contains(s: string, sub: string) {
    exists i :: 0 <= i <= |s| && OccursAt(s, sub, i)
  }

  const FinalAnswerMarker: string := "\"action\":\"finalanswer\","
  const ActionInputMarker: string := "\"actioninput\":\""

  /** The final-answer test of the source: lower-cased, spaces removed. */
  predicate FinalAnswerSeen(out: string) {
    Contains(Remove(Lower(out), ' '), FinalAnswerMarker)
  }

  /** The action-input test of the source: lower-cased, spaces and
      underscores removed. */
  predicate ActionInputSeen(out: string) {
    Contains(Remove(Remove(Lower(out), ' '), '_'), ActionInputMarker)
  }

  /** `has_unescaped_quote`: a match of the pattern `(?<!\\)"`, a double
      quote not preceded by a backslash. */
  predicate HasUnescapedQuote(s: string) {
    exists i :: 0 <= i < |s| && s[i] == '"' && (i == 0 || s[i - 1] != '\\')
  }

  // ---------------------------------------------------------------------
  // The generator as a specification

  /** The generator's local variables. */
  datatype ParserState = ParserState(
    finalAnswer: bool,
    justStartStream: bool,
    modelOutput: string,
    hold: string,
    findingEnd: nat)

  const Start: ParserState := ParserState(false, false, "", "", 0)

  datatype ParserStep = ParserStep(state: ParserState, emitted: seq<ParserItem>)

  /** One pass of the loop over tokens. */
  function Step(st: ParserState, token: string): ParserStep {
    var out := st.modelOutput + token;
    var finalAnswer := st.finalAnswer || FinalAnswerSeen(out);
    if finalAnswer && ActionInputSeen(out) then
      Stream(st, out, if st.justStartStream then st.hold + token else "")
    else
      ParserStep(ParserState(finalAnswer, st.justStartStream, out, st.hold + token, st.findingEnd), [])
  }

  /** The streaming branch of a pass, once both markers are in the output,
      with the pending text `hold`. */
  function Stream(st: ParserState, out: string, hold: string): ParserStep {
    var cut := HasUnescapedQuote(hold);
    var findingEnd := if cut then st.findingEnd + 1 else st.findingEnd;
    var piece := if cut then hold[..FindChar(hold, '"')] else hold;
    if findingEnd <= 1 then
      ParserStep(ParserState(true, true, out, "", if findingEnd == 1 then 2 else findingEnd), [AnswerPiece(piece)])
    else
      ParserStep(ParserState(true, true, out, piece, findingEnd), [])
  }

  datatype Fed = Fed(state: ParserState, items: seq<ParserItem>)

  /** The state and the pieces yielded after the given tokens. */
  function Feed(tokens: seq<string>): Fed
    decreases |tokens|
  {
    if tokens == [] then Fed(Start, [])
    else
      var f := Feed(tokens[..|tokens| - 1]);
      var s := Step(f.state, tokens[|tokens| - 1]);
      Fed(s.state, f.items + s.emitted)
  }

  /** What follows the loop: the whole output is parsed by `extract`
      (`extract_embedded_json`, None when it raises) and the decision is
      yielded, or the generator raises. */
  function Finish(f: Fed, extract: string -> Option<map<string, string>>): ParserRun {
    match extract(f.state.modelOutput)
    case None => ParserRun(f.items, Some(NoEmbeddedJson))
    case Some(j) =>
      if "action" in j && "action_input" in j then
        ParserRun(f.items + [ChatModelOut(ModelOut(f.state.modelOutput, j["action"], j["action_input"]))], None)
      else ParserRun(f.items, Some(MissingActionValues))
  }

  function ParseStream(tokens: seq<string>, extract: string -> Option<map<string, string>>): ParserRun {
    Finish(Feed(tokens), extract)
  }

  // ---------------------------------------------------------------------
  // The generator

  /** One pass of the loop body of the generator. */
  method ParseToken(finalAnswer0: bool, justStartStream0: bool, modelOutput0: string, hold0: string, findingEnd0: nat, token: string)
    returns (finalAnswer: bool, justStartStream: bool, modelOutput: string, hold: string, findingEnd: nat, emitted: seq<ParserItem>)
    ensures ParserStep(ParserState(finalAnswer, justStartStream, modelOutput, hold, findingEnd), emitted)
         == Step(ParserState(finalAnswer0, justStartStream0, modelOutput0, hold0, findingEnd0), token)
  {
    finalAnswer, justStartStream, modelOutput, hold, findingEnd := finalAnswer0, justStartStream0, modelOutput0, hold0, findingEnd0;
    emitted := [];
    modelOutput := modelOutput + token;
    hold := hold + token;
    if !finalAnswer && FinalAnswerSeen(modelOutput) {
      finalAnswer := true;
    }
    if finalAnswer && ActionInputSeen(modelOutput) {
      if !justStartStream {
        justStartStream := true;
        hold := "";
      }
      ghost var pending := hold;
      assert pending == if justStartStream0 then hold0 + token else "";
      if HasUnescapedQuote(hold) {
        findingEnd := findingEnd + 1;
        hold := hold[..FindChar(hold, '"')];
      }
      if findingEnd <= 1 {
        if findingEnd == 1 {
          findingEnd := findingEnd + 1;
        }
        emitted := [AnswerPiece(hold)];
        hold := "";
      }
      assert ParserStep(ParserState(finalAnswer, justStartStream, modelOutput, hold, findingEnd), emitted)
          == Stream(ParserState(finalAnswer0, justStartStream0, modelOutput0, hold0, findingEnd0), modelOutput, pending);
    }
  }

  /** `_parse_embedded_json_streamed_response` over the model's tokens. */
  method ParseEmbeddedJsonStreamedResponse(tokens: seq<string>, extract: string -> Option<map<string, string>>)
    returns (run: ParserRun)
    ensures run == ParseStream(tokens, extract)
  {
    var finalAnswer := false;
    var justStartStream := false;
    var modelOutput := "";
    var hold := "";
    var findingEnd: nat := 0;
    var items: seq<ParserItem> := [];
    for k := 0 to |tokens|
      invariant Feed(tokens[..k]) == Fed(ParserState(finalAnswer, justStartStream, modelOutput, hold, findingEnd), items)
    {
      assert tokens[..k + 1][..k] == tokens[..k];
      var emitted;
      finalAnswer, justStartStream, modelOutput, hold, findingEnd, emitted :=
        ParseToken(finalAnswer, justStartStream, modelOutput, hold, findingEnd, tokens[k]);
      items := items + emitted;
    }
    assert tokens[..|tokens|] == tokens;
    var modelFinal := extract(modelOutput);
    if modelFinal.None? {
      return ParserRun(items, Some(NoEmbeddedJson));
    }
    if "action" !in modelFinal.value || "action_input" !in modelFinal.value {
      return ParserRun(items, Some(MissingActionValues));
    }
    items := items + [ChatModelOut(ModelOut(modelOutput, modelFinal.value["action"], modelFinal.value["action_input"]))];
    return ParserRun(items, None);
  }
}
