// What becomes of an Anthropic response in either direction, in terms of its own fields.
module AnthropicResponseFidelity {
  import opened Options
  import opened Text
  import opened IR
  import opened Anthropic
  import opened AnthropicResponse

  // ---- The provider's response ----

  predicate OutputRead(item: Content, block: Block) {
    || (block.kind == "text" && item == Content(Text, block.text, None, None, None))
    || (&& block.kind == "tool_use" && block.id != "" && block.name != "" && block.input.IsObject()
        && item == Content(Call, "", None, Some(ToolCall(block.id, block.name, block.input, "")), None))
  }

  predicate OutputsRead(items: seq<Content>, blocks: seq<Block>) {
    |items| == |blocks| && forall i :: 0 <= i < |blocks| ==> OutputRead(items[i], blocks[i])
  }

  lemma {:induction false} OutputsReadExactly(items: seq<Content>, blocks: seq<Block>)
    ensures OutputBlocks(blocks) == Some(items) <==> OutputsRead(items, blocks)
    decreases |blocks|
  {
    if blocks != [] {
      var n := |blocks| - 1;
      if |items| == n + 1 {
        OutputsReadExactly(items[..n], blocks[..n]);
        assert items == items[..n] + [items[n]];
        assert OutputBlock(blocks[n]) == Some(items[n]) <==> OutputRead(items[n], blocks[n]);
      } else if OutputBlocks(blocks[..n]).Some? {
        OutputsReadExactly(OutputBlocks(blocks[..n]).value, blocks[..n]);
      }
    }
  }

  predicate FinishRead(finish: Finish, reason: string) {
    || (finish == Stop && reason in ["end_turn", "stop_sequence", "pause_turn"])
    || (finish == Length && reason in ["max_tokens", "model_context_window_exceeded"])
    || (finish == ToolCalls && reason == "tool_use")
    || (finish == Filtered && reason == "refusal")
  }

  // Equal in 64-bit arithmetic.
  predicate Congruent(a: int, b: int) {
    (a - b) % 0x1_0000_0000_0000_0000 == 0
  }

  lemma WrapExactly(n: int, value: Int)
    ensures Wrap(n) == value <==> Congruent(value, n)
  {
    var size := 0x1_0000_0000_0000_0000;
    var q := (n - INT64_MIN) / size;
    assert Wrap(n) - n == -q * size;
    ModShift(0, q);
    if Congruent(value, n) {
      var p := (value - n) / size;
      assert value - Wrap(n) == (p + q) * size;
    }
  }

  predicate UsageRead(read: Usage, usage: WireUsage) {
    && usage.inputTokens >= 0 && usage.outputTokens >= 0 && usage.cacheCreationInputTokens >= 0 && usage.cacheReadInputTokens >= 0
    && Congruent(read.inputTokens, usage.inputTokens + usage.cacheCreationInputTokens + usage.cacheReadInputTokens)
    && read.outputTokens == usage.outputTokens && read.cacheCreationInputTokens == usage.cacheCreationInputTokens
    && read.cachedInputTokens == usage.cacheReadInputTokens
  }

  // A stop sequence is given, and not blank, exactly when it is the reason.
  predicate StopRead(read: string, response: MessageResponse) {
    if response.stopReason == "stop_sequence" then response.stopSequence == Some(read) && !Blank(read)
    else response.stopSequence == None && read == ""
  }

  ghost predicate ResponseRead(read: Response, response: MessageResponse, requestID: string, upstream: string) {
    && response.id != "" && response.kind == "message" && response.role == "assistant" && (response.model == "" || response.model == upstream)
    && OutputsRead(read.content, response.content) && FinishRead(read.finishReason, response.stopReason)
    && StopRead(read.stopSequence, response) && UsageRead(read.usage, response.usage)
    && read.version == "2026-07-12" && read.id == requestID && read.model == upstream && read.providerResponseID == response.id
    && ValidResponse(read)
  }

  lemma TotalExactly(read: Usage, usage: WireUsage)
    ensures usage.NonNegative() && read == Usage(InputTotal(usage), usage.outputTokens, usage.cacheCreationInputTokens, usage.cacheReadInputTokens)
       <==> UsageRead(read, usage)
  {
    WrapShift(usage.inputTokens + usage.cacheCreationInputTokens, usage.cacheReadInputTokens);
    WrapExactly(usage.inputTokens + usage.cacheCreationInputTokens + usage.cacheReadInputTokens, read.inputTokens);
    hide Wrap;
    hide Congruent;
  }

  lemma StopReadExactly(read: string, response: MessageResponse)
    ensures StopFits(response) && read == (if response.stopSequence.Some? then response.stopSequence.value else "") <==> StopRead(read, response)
  {
    if response.stopSequence.Some? {
      TrimSpaceEmpties(response.stopSequence.value);
    }
  }

  // A provider's response is accepted exactly when it is well formed and what it has been
  // read into is valid; every field of the result comes from a field of the response.
  lemma ResponseReadExactly(read: Response, response: MessageResponse, requestID: string, upstream: string)
    ensures ResponseToIR(response, requestID, upstream) == Some(read) <==> ResponseRead(read, response, requestID, upstream)
  {
    OutputsReadExactly(read.content, response.content);
    StopReadExactly(read.stopSequence, response);
    TotalExactly(read.usage, response.usage);
    assert FinishFor(response.stopReason) == Some(read.finishReason) <==> FinishRead(read.finishReason, response.stopReason);
    hide FinishFor;
    hide FinishRead;
    hide OutputBlocks;
    hide OutputsRead;
    hide StopFits;
    hide StopRead;
    hide UsageRead;
    hide InputTotal;
    hide ValidResponse;
  }

  // ---- The client's response, from any provider ----

  predicate OutputSent(block: Block, item: Content) {
    || (item.kind == Text && block == Block("text", item.text, None, "", "", Missing, "", [], false))
    || (&& item.kind == Call && item.call.Some?
        && block == Block("tool_use", "", None, item.call.value.id, item.call.value.name, item.call.value.arguments, "", [], false))
  }

  predicate OutputsSent(blocks: seq<Block>, items: seq<Content>) {
    |blocks| == |items| && forall i :: 0 <= i < |items| ==> OutputSent(blocks[i], items[i])
  }

  lemma {:induction false} OutputsSentExactly(blocks: seq<Block>, items: seq<Content>)
    ensures ClientBlocks(items) == Some(blocks) <==> OutputsSent(blocks, items)
    decreases |items|
  {
    if items != [] {
      var n := |items| - 1;
      if |blocks| == n + 1 {
        OutputsSentExactly(blocks[..n], items[..n]);
        assert blocks == blocks[..n] + [blocks[n]];
        assert ClientBlockFor(items[n]) == Some(blocks[n]) <==> OutputSent(blocks[n], items[n]);
      } else if ClientBlocks(items[..n]).Some? {
        OutputsSentExactly(ClientBlocks(items[..n]).value, items[..n]);
      }
    }
  }

  predicate ReasonSent(reason: string, stop: Option<string>, response: Response) {
    match response.finishReason
    case Stop =>
      if response.stopSequence == "" then reason == "end_turn" && stop == None
      else reason == "stop_sequence" && stop == Some(response.stopSequence)
    case Length => reason == "max_tokens" && stop == None
    case ToolCalls => reason == "tool_use" && stop == None
    case Filtered => reason == "refusal" && stop == None
    case OtherFinish(_) => false
  }

  // The counts of the client's format: input counts there leave the cached ones out.
  predicate UsageSent(sent: WireUsage, usage: Usage) {
    && sent.inputTokens >= 0 && Congruent(sent.inputTokens, usage.inputTokens - usage.cacheCreationInputTokens - usage.cachedInputTokens)
    && sent.outputTokens == usage.outputTokens && sent.cacheCreationInputTokens == usage.cacheCreationInputTokens
    && sent.cacheReadInputTokens == usage.cachedInputTokens
  }

  ghost predicate ResponseSent(sent: MessageResponse, response: Response, requestedModel: string, messageID: string) {
    && ValidResponse(response) && !Blank(requestedModel) && messageID != ""
    && sent.id == messageID && sent.kind == "message" && sent.role == "assistant" && sent.model == requestedModel
    && OutputsSent(sent.content, response.content) && ReasonSent(sent.stopReason, sent.stopSequence, response)
    && UsageSent(sent.usage, response.usage)
  }

  lemma UncachedExactly(sent: WireUsage, usage: Usage)
    ensures Uncached(usage) >= 0 && sent == WireUsage(Uncached(usage), usage.outputTokens, usage.cacheCreationInputTokens, usage.cachedInputTokens)
       <==> UsageSent(sent, usage)
  {
    WrapShift(usage.inputTokens - usage.cacheCreationInputTokens, -(usage.cachedInputTokens as int));
    WrapExactly(usage.inputTokens - usage.cacheCreationInputTokens - usage.cachedInputTokens, sent.inputTokens);
    hide Wrap;
    hide Congruent;
  }

  // A valid response from any provider is sent exactly when it has no image, its total
  // covers its cached counts and the client is known; what is sent says what it says.
  lemma ResponseSentExactly(sent: MessageResponse, response: Response, requestedModel: string, messageID: string)
    ensures ResponseFor(response, requestedModel, messageID) == Some(sent) <==> ResponseSent(sent, response, requestedModel, messageID)
  {
    OutputsSentExactly(sent.content, response.content);
    UncachedExactly(sent.usage, response.usage);
    TrimSpaceEmpties(requestedModel);
    hide OutputsSent;
    hide ClientBlocks;
    hide UsageSent;
    hide Uncached;
  }
}
