// An Anthropic client's request reaches the provider with its meaning kept.
module AnthropicRequest {
  import opened Options
  import opened Text
  import opened IR
  import opened Anthropic

  // ---- The client's request to the provider-neutral one ----

  function TrimmedTools(tools: seq<Function>): seq<Function> {
    seq(|tools|, i requires 0 <= i < |tools| => tools[i].(name := TrimSpace(tools[i].name)))
  }

  ghost predicate ToolsOk(tools: seq<Function>) {
    && (forall tool <- tools :: TrimSpace(tool.name) != "" && tool.inputSchema.IsObject())
    && (forall i, j :: 0 <= i < j < |tools| ==> TrimSpace(tools[i].name) != TrimSpace(tools[j].name))
  }

  // "none" is dropped when there is nothing to choose from.
  function ChoiceToIR(choice: Option<WireChoice>, tools: seq<Function>): Result<Option<ToolChoice>, ()> {
    if choice.None? then Ok(None)
    else
      var wire := choice.value;
      if wire.kind == "none" then
        if wire.disableParallel then Err(()) else Ok(if tools != [] then Some(ToolChoice("none", "", false)) else None)
      else if tools == [] then Err(())
      else if wire.kind == "auto" then Ok(Some(ToolChoice("auto", "", wire.disableParallel)))
      else if wire.kind == "any" then Ok(Some(ToolChoice("required", "", wire.disableParallel)))
      else if wire.kind == "tool" && wire.name != "" && exists tool <- tools :: TrimSpace(tool.name) == wire.name then
        Ok(Some(ToolChoice("named", wire.name, wire.disableParallel)))
      else Err(())
  }

  predicate HeaderOk(request: ClientRequest) {
    && TrimSpace(request.model) != "" && request.maxTokens > 0 && request.messages != [] && !request.stream && !request.unportable
    && InUnit(request.temperature) && InUnit(request.topP) && "" !in request.stopSequences
  }

  ghost function RequestToIR(request: ClientRequest, route: Route, requestID: string): Option<Request> {
    if !HeaderOk(request) || SystemToIR(request.system).None? then None
    else
      var messages := MessagesToIR(SystemToIR(request.system).value, request.messages);
      var choice := ChoiceToIR(request.toolChoice, request.tools);
      if messages.None? || !ToolsOk(request.tools) || choice.Err? then None
      else
        var result := Request(VERSION, requestID, route, messages.value, Some(request.maxTokens), request.temperature, request.topP,
                              request.stopSequences, TrimmedTools(request.tools), choice.value, map[], false);
        if ValidRequest(result) then Some(result) else None
  }

  // ---- The provider-neutral request to the provider's ----

  function ChoiceFor(choice: Option<ToolChoice>): Option<Option<WireChoice>> {
    if choice.None? then Some(None)
    else match choice.value.mode
      case "auto" => Some(Some(WireChoice("auto", "", choice.value.disableParallel)))
      case "none" => Some(Some(WireChoice("none", "", false)))
      case "required" => Some(Some(WireChoice("any", "", choice.value.disableParallel)))
      case "named" => Some(Some(WireChoice("tool", choice.value.name, choice.value.disableParallel)))
      case _ => None
  }

  function TokenLimit(request: Request, default: int): int {
    if request.maxOutputTokens.Some? then request.maxOutputTokens.value else default
  }

  ghost function RequestFor(request: Request, default: int, cap: int): Option<MessageRequest> {
    var limit := TokenLimit(request, default);
    if !ValidRequest(request) || request.stream || request.metadata != map[] || limit <= 0 || (cap > 0 && limit > cap) then None
    else
      var prompt, choice := PromptFor(request.messages), ChoiceFor(request.toolChoice);
      if prompt.None? || prompt.value.messages == [] || choice.None? then None
      else Some(MessageRequest(request.route.upstreamModel, limit, prompt.value.messages, prompt.value.system, request.temperature,
                               request.topP, request.stop, request.tools, choice.value))
  }

  // ---- The request's normal form ----

  // A choice other than "tool" has no use for a name; "none" goes when there are no tools.
  function NormalChoice(choice: Option<WireChoice>, tools: seq<Function>): Option<WireChoice> {
    if choice.None? || (choice.value.kind == "none" && tools == []) then None
    else Some(choice.value.(name := if choice.value.kind == "tool" then choice.value.name else ""))
  }

  function NormalRequest(request: ClientRequest, route: Route): MessageRequest {
    MessageRequest(route.upstreamModel, request.maxTokens, NormalMessages(request.messages), NormalContent(request.system),
                   request.temperature, request.topP, request.stopSequences, TrimmedTools(request.tools), NormalChoice(request.toolChoice, request.tools))
  }

  lemma ChoiceKept(choice: Option<WireChoice>, tools: seq<Function>)
    requires ChoiceToIR(choice, tools).Ok?
    ensures ChoiceFor(ChoiceToIR(choice, tools).value) == Some(NormalChoice(choice, tools))
  {
  }

  lemma {:induction false} SomeMessages(messages: seq<ClientMessage>)
    ensures |NormalMessages(messages)| == |messages|
  {
    if messages != [] {
      SomeMessages(messages[..|messages| - 1]);
    }
  }

  // Every client request that the gateway accepts is sent to the provider unless its token
  // limit exceeds the adapter's cap, and what is sent is its normal form: the same system
  // prompt, messages and nested results, tools, choice, stops and limits, for the route's model.
  lemma RequestKept(request: ClientRequest, route: Route, requestID: string, default: int, cap: int)
    requires RequestToIR(request, route, requestID).Some?
    ensures RequestFor(RequestToIR(request, route, requestID).value, default, cap) ==
            if cap > 0 && request.maxTokens > cap then None else Some(NormalRequest(request, route))
  {
    var system := SystemToIR(request.system).value;
    SystemKept(request.system);
    MessagesKept(system, request.messages);
    ChoiceKept(request.toolChoice, request.tools);
    SomeMessages(request.messages);
    assert [] + NormalMessages(request.messages) == NormalMessages(request.messages);
  }
}
