// An Anthropic response comes back to the client as the provider sent it.
module AnthropicResponse {
  import opened Options
  import opened Text
  import opened IR
  import opened Anthropic

  datatype WireUsage = WireUsage(inputTokens: Int, outputTokens: Int, cacheCreationInputTokens: Int, cacheReadInputTokens: Int) {
    predicate NonNegative() {
      inputTokens >= 0 && outputTokens >= 0 && cacheCreationInputTokens >= 0 && cacheReadInputTokens >= 0
    }
  }

  datatype MessageResponse = MessageResponse(
    id: string, kind: string, role: string, content: seq<Block>, model: string, stopReason: string, stopSequence: Option<string>,
    usage: WireUsage)

  // ---- The provider's response to the provider-neutral one ----

  // The total in Go's int arithmetic.
  function InputTotal(usage: WireUsage): Int {
    Wrap(Wrap(usage.inputTokens + usage.cacheCreationInputTokens) + usage.cacheReadInputTokens)
  }

  function FinishFor(stopReason: string): Option<Finish> {
    match stopReason
    case "end_turn" => Some(Stop)
    case "stop_sequence" => Some(Stop)
    case "pause_turn" => Some(Stop)
    case "max_tokens" => Some(Length)
    case "model_context_window_exceeded" => Some(Length)
    case "tool_use" => Some(ToolCalls)
    case "refusal" => Some(Filtered)
    case _ => None
  }

  function OutputBlock(block: Block): Option<Content> {
    if block.kind == "text" then Some(TextContent(block.text))
    else if block.kind == "tool_use" && block.id != "" && block.name != "" && block.input.IsObject() then
      Some(CallContent(ToolCall(block.id, block.name, block.input, "")))
    else None
  }

  function OutputBlocks(blocks: seq<Block>): Option<seq<Content>> {
    if blocks == [] then Some([])
    else
      var init, item := OutputBlocks(blocks[..|blocks| - 1]), OutputBlock(blocks[|blocks| - 1]);
      if init.None? || item.None? then None else Some(init.value + [item.value])
  }

  // A stop sequence is given exactly with its stop reason.
  predicate StopFits(response: MessageResponse) {
    if response.stopReason == "stop_sequence" then response.stopSequence.Some? && TrimSpace(response.stopSequence.value) != ""
    else response.stopSequence.None?
  }

  ghost function ResponseToIR(response: MessageResponse, requestID: string, upstream: string): Option<Response> {
    var content, finish := OutputBlocks(response.content), FinishFor(response.stopReason);
    if response.id == "" || response.kind != "message" || response.role != "assistant" || (response.model != "" && response.model != upstream)
       || !response.usage.NonNegative() || finish.None? || content.None? || !StopFits(response)
    then None
    else
      var result := Response(VERSION, requestID, upstream, content.value, finish.value,
                             if response.stopSequence.Some? then response.stopSequence.value else "",
                             Usage(InputTotal(response.usage), response.usage.outputTokens, response.usage.cacheCreationInputTokens,
                                   response.usage.cacheReadInputTokens),
                             response.id);
      if ValidResponse(result) then Some(result) else None
  }

  // ---- ... and from there to the client's ----

  function Uncached(usage: Usage): Int {
    Wrap(Wrap(usage.inputTokens - usage.cacheCreationInputTokens) - usage.cachedInputTokens)
  }

  function ClientBlockFor(content: Content): Option<Block> {
    if content.kind == Text then Some(TextBlock(content.text))
    else if content.kind == Call && content.call.Some? then
      Some(ToolUseBlock(content.call.value.id, content.call.value.name, content.call.value.arguments))
    else None
  }

  function ClientBlocks(contents: seq<Content>): Option<seq<Block>> {
    if contents == [] then Some([])
    else
      var init, block := ClientBlocks(contents[..|contents| - 1]), ClientBlockFor(contents[|contents| - 1]);
      if init.None? || block.None? then None else Some(init.value + [block.value])
  }

  function StopReasonFor(response: Response): string {
    match response.finishReason
    case Stop => if response.stopSequence != "" then "stop_sequence" else "end_turn"
    case Length => "max_tokens"
    case ToolCalls => "tool_use"
    case Filtered => "refusal"
    case OtherFinish(text) => text
  }

  ghost function ResponseFor(response: Response, requestedModel: string, messageID: string): Option<MessageResponse> {
    var blocks, uncached := ClientBlocks(response.content), Uncached(response.usage);
    if !ValidResponse(response) || TrimSpace(requestedModel) == "" || messageID == "" || uncached < 0 || blocks.None? then None
    else Some(MessageResponse(
      messageID, "message", "assistant", blocks.value, requestedModel, StopReasonFor(response),
      if response.finishReason == Stop && response.stopSequence != "" then Some(response.stopSequence) else None,
      WireUsage(uncached, response.usage.outputTokens, response.usage.cacheCreationInputTokens, response.usage.cachedInputTokens)))
  }

  // ---- The round trip ----

  function NormalReason(stopReason: string): string {
    if stopReason == "pause_turn" then "end_turn"
    else if stopReason == "model_context_window_exceeded" then "max_tokens"
    else stopReason
  }

  // A text or tool_use block without what belongs to other blocks.
  function NormalOutput(block: Block): Block {
    if block.kind == "text" then TextBlock(block.text) else ToolUseBlock(block.id, block.name, block.input)
  }

  function NormalOutputs(blocks: seq<Block>): seq<Block> {
    if blocks == [] then [] else NormalOutputs(blocks[..|blocks| - 1]) + [NormalOutput(blocks[|blocks| - 1])]
  }

  lemma {:induction false} BlocksReturn(blocks: seq<Block>)
    requires OutputBlocks(blocks).Some?
    ensures ClientBlocks(OutputBlocks(blocks).value) == Some(NormalOutputs(blocks))
  {
    if blocks != [] {
      var last := |blocks| - 1;
      BlocksReturn(blocks[..last]);
      var init, item := OutputBlocks(blocks[..last]).value, OutputBlock(blocks[last]).value;
      assert (init + [item])[..|init|] == init;
    }
  }

  // Subtracting undoes adding even when the total wraps around.
  lemma UncachedRecovered(usage: WireUsage)
    ensures Uncached(Usage(InputTotal(usage), usage.outputTokens, usage.cacheCreationInputTokens, usage.cacheReadInputTokens)) == usage.inputTokens
  {
    Undone(usage.inputTokens, usage.cacheCreationInputTokens, usage.cacheReadInputTokens);
  }

  lemma Undone(a: int, b: int, c: int)
    requires INT64_MIN <= a <= INT64_MAX
    ensures Wrap(Wrap(Wrap(Wrap(a + b) + c) - b) - c) == a
  {
    WrapShift(a + b, c);
    WrapShift(a + b + c, -b);
    WrapShift(a + c, -c);
    WrapShift(a, 0);
    hide Wrap;
    assert Wrap(Wrap(a + b) + c) == Wrap(a + b + c);
    assert Wrap(Wrap(a + b + c) + -b) == Wrap(a + c);
    assert Wrap(Wrap(a + c) + -c) == Wrap(a);
  }

  lemma WrapShift(n: int, k: int)
    ensures Wrap(Wrap(n) + k) == Wrap(n + k)
    ensures INT64_MIN <= n <= INT64_MAX ==> Wrap(n) == n
  {
    var size := 0x1_0000_0000_0000_0000;
    var q := (n - INT64_MIN) / size;
    assert Wrap(n) == n - q * size;
    assert (Wrap(n) + k - INT64_MIN) == (n + k - INT64_MIN) - q * size;
    ModShift(n + k - INT64_MIN, q);
  }

  lemma ModShift(n: int, q: int)
    ensures (n - q * 0x1_0000_0000_0000_0000) % 0x1_0000_0000_0000_0000 == n % 0x1_0000_0000_0000_0000
  {
  }

  // Every accepted provider response is returned with the same content, stop sequence and
  // four token counts, and a stop reason the client's format knows.
  lemma ResponseReturns(response: MessageResponse, requestID: string, upstream: string, requestedModel: string, messageID: string)
    requires ResponseToIR(response, requestID, upstream).Some? && TrimSpace(requestedModel) != "" && messageID != ""
    ensures ResponseFor(ResponseToIR(response, requestID, upstream).value, requestedModel, messageID) ==
            Some(MessageResponse(messageID, "message", "assistant", NormalOutputs(response.content), requestedModel,
                                 NormalReason(response.stopReason), response.stopSequence, response.usage))
  {
    BlocksReturn(response.content);
    UncachedRecovered(response.usage);
    StopReturns(response);
    hide InputTotal;
    hide Uncached;
    hide OutputBlocks;
    hide FinishFor;
  }

  lemma StopReturns(response: MessageResponse)
    requires FinishFor(response.stopReason).Some? && StopFits(response)
    ensures var finish, stop := FinishFor(response.stopReason).value, if response.stopSequence.Some? then response.stopSequence.value else "";
            && (response.stopSequence == if finish == Stop && stop != "" then Some(stop) else None)
            && NormalReason(response.stopReason) ==
               match finish
               case Stop => if stop != "" then "stop_sequence" else "end_turn"
               case Length => "max_tokens"
               case ToolCalls => "tool_use"
               case Filtered => "refusal"
               case OtherFinish(text) => text
  {
    TrimEmpty();
  }

  lemma TrimEmpty()
    ensures TrimSpace("") == ""
  {
  }

  // The total passed on is the true one exactly when the sum fits in 64 bits; a sum that
  // wraps all the way round to a non-negative number is accepted with a wrong total.
  lemma TotalIsTrue(usage: WireUsage)
    requires usage.NonNegative()
    ensures InputTotal(usage) == usage.inputTokens + usage.cacheCreationInputTokens + usage.cacheReadInputTokens
       <==> usage.inputTokens + usage.cacheCreationInputTokens + usage.cacheReadInputTokens <= INT64_MAX
    ensures InputTotal(WireUsage(INT64_MAX, 0, INT64_MAX, 2)) == 0
  {
    WrapShift(usage.inputTokens + usage.cacheCreationInputTokens, usage.cacheReadInputTokens);
    WrapShift(usage.inputTokens + usage.cacheCreationInputTokens + usage.cacheReadInputTokens, 0);
  }

  // ---- The code ----

  lemma {:induction false} OutputStops(blocks: seq<Block>, n: nat)
    requires n <= |blocks| && OutputBlocks(blocks[..n]).None?
    ensures OutputBlocks(blocks).None?
    decreases |blocks| - n
  {
    if n < |blocks| {
      assert blocks[..n + 1][..n] == blocks[..n];
      OutputStops(blocks, n + 1);
    } else {
      assert blocks[..n] == blocks;
    }
  }

  method ToIRResponse(response: MessageResponse, requestID: string, upstream: string) returns (translated: Option<Response>)
    ensures translated == ResponseToIR(response, requestID, upstream)
  {
    if response.id == "" || response.kind != "message" || response.role != "assistant" || (response.model != "" && response.model != upstream)
       || !response.usage.NonNegative() {
      return None;
    }
    var usage := Usage(InputTotal(response.usage), response.usage.outputTokens, response.usage.cacheCreationInputTokens,
                       response.usage.cacheReadInputTokens);
    var finish := FinishFor(response.stopReason);
    if finish.None? {
      return None;
    }
    var content: seq<Content> := [];
    for i := 0 to |response.content|
      invariant OutputBlocks(response.content[..i]) == Some(content)
    {
      assert response.content[..i + 1][..i] == response.content[..i];
      var item := OutputBlock(response.content[i]);
      if item.None? {
        OutputStops(response.content, i + 1);
        return None;
      }
      content := content + [item.value];
    }
    assert response.content[..|response.content|] == response.content;
    if !StopFits(response) {
      return None;
    }
    var result := Response(VERSION, requestID, upstream, content, finish.value,
                           if response.stopSequence.Some? then response.stopSequence.value else "", usage, response.id);
    var valid := ValidateResponse(result);
    return if valid then Some(result) else None;
  }

  lemma {:induction false} ClientStops(contents: seq<Content>, n: nat)
    requires n <= |contents| && ClientBlocks(contents[..n]).None?
    ensures ClientBlocks(contents).None?
    decreases |contents| - n
  {
    if n < |contents| {
      assert contents[..n + 1][..n] == contents[..n];
      ClientStops(contents, n + 1);
    } else {
      assert contents[..n] == contents;
    }
  }

  method FromIRResponse(response: Response, requestedModel: string, messageID: string) returns (translated: Option<MessageResponse>)
    ensures translated == ResponseFor(response, requestedModel, messageID)
  {
    var valid := ValidateResponse(response);
    if !valid || TrimSpace(requestedModel) == "" || messageID == "" {
      return None;
    }
    var uncached := Uncached(response.usage);
    if uncached < 0 {
      return None;
    }
    var content: seq<Block> := [];
    for i := 0 to |response.content|
      invariant ClientBlocks(response.content[..i]) == Some(content)
    {
      assert response.content[..i + 1][..i] == response.content[..i];
      var block := ClientBlockFor(response.content[i]);
      if block.None? {
        ClientStops(response.content, i + 1);
        return None;
      }
      content := content + [block.value];
    }
    assert response.content[..|response.content|] == response.content;
    var stopSequence := if response.finishReason == Stop && response.stopSequence != "" then Some(response.stopSequence) else None;
    return Some(MessageResponse(
      messageID, "message", "assistant", content, requestedModel, StopReasonFor(response), stopSequence,
      WireUsage(uncached, response.usage.outputTokens, response.usage.cacheCreationInputTokens, response.usage.cachedInputTokens)));
  }
}
