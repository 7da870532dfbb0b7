/** The answer-flow selector, `generate_message_response`: from the persona
    (if any) and the tool-prompt switch, choose which answer flow serves the
    chat message. */
module Strategy {
  import opened Common

  /** What the selector reads of a persona: whether retrieval is enabled,
      its tools, and its system text. */
  datatype Persona = Persona(retrievalEnabled: bool, tools: seq<string>, systemText: Option<string>)

  datatype AnswerFlow =
    | Contextless             // `llm_contextless_chat_answer(messages)`
    | ContextlessWithPersona  // the same, with the persona's system text and the tokenizer
    | Contextual              // `llm_contextual_chat_answer`
    | ToolsEnabled            // `llm_tools_enabled_chat_answer`

  /** `generate_message_response`; `forceToolPrompt` is the configuration
      switch `FORCE_TOOL_PROMPT`. */
  function GenerateMessageResponse(persona: Option<Persona>, forceToolPrompt: bool): (f: AnswerFlow)
    ensures f == Contextless <==> persona.None?
    ensures f == ToolsEnabled <==>
      persona.Some? && (persona.value.tools != [] || (persona.value.retrievalEnabled && forceToolPrompt))
    ensures f == Contextual ==> persona.value.retrievalEnabled && !forceToolPrompt
  {
    if persona.None? then Contextless
    else if !persona.value.retrievalEnabled && persona.value.tools == [] then ContextlessWithPersona
    else if persona.value.retrievalEnabled && persona.value.tools == [] && !forceToolPrompt then Contextual
    else ToolsEnabled
  }

  /** A persona with tools always gets the tool-enabled flow, whatever the
      retrieval setting and the switch. */
  lemma ToolsSelectToolFlow(p: Persona, force: bool)
    requires p.tools != []
    ensures GenerateMessageResponse(Some(p), force) == ToolsEnabled
  {
  }

  /** A persona without retrieval and without tools is answered without
      context, even when the tool prompt is forced. */
  lemma NoRetrievalNoToolsIsContextless(p: Persona, force: bool)
    requires !p.retrievalEnabled && p.tools == []
    ensures GenerateMessageResponse(Some(p), force) == ContextlessWithPersona
  {
  }

  /** The switch decides only for a persona with retrieval and no tools:
      there it turns the contextual flow into the tool-enabled one. */
  lemma ForceMattersOnlyForRetrievalWithoutTools(persona: Option<Persona>)
    ensures GenerateMessageResponse(persona, true) != GenerateMessageResponse(persona, false)
      <==> persona.Some? && persona.value.retrievalEnabled && persona.value.tools == []
    ensures persona.Some? && persona.value.retrievalEnabled && persona.value.tools == [] ==>
      GenerateMessageResponse(persona, false) == Contextual && GenerateMessageResponse(persona, true) == ToolsEnabled
  {
  }

  /** The flow that gets the persona's system text is chosen exactly for a
      persona with neither retrieval nor tools. */
  lemma ContextlessWithPersonaExactly(persona: Option<Persona>, force: bool)
    ensures GenerateMessageResponse(persona, force) == ContextlessWithPersona
      <==> persona.Some? && !persona.value.retrievalEnabled && persona.value.tools == []
  {
  }
}
