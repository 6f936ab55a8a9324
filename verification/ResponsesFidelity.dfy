// What becomes of an OpenAI Responses response in either direction, in terms of its own
// fields.
module ResponsesFidelity {
  import opened Options
  import opened IR
  import opened Responses

  // ---- Reading ----

  // A text, or a refusal, which is read as its text.
  predicate TextRead(item: Content, output: OutputContent) {
    || (output.kind == "output_text" && !output.annotated && item == Content(Text, output.text, None, None, None))
    || (output.kind == "refusal" && item == Content(Text, output.refusal, None, None, None))
  }

  predicate TextsRead(items: seq<Content>, outputs: seq<OutputContent>) {
    |items| == |outputs| && forall i :: 0 <= i < |outputs| ==> TextRead(items[i], outputs[i])
  }

  predicate CallRead(item: Content, output: OutputItem) {
    && output.kind == "function_call" && output.callID != "" && output.name != "" && output.arguments.IsObject()
    && item == Content(Call, "", None, Some(ToolCall(output.callID, output.name, output.arguments, "")), None)
  }

  // The items say, in order, what the output says: a message its texts, a function call
  // itself, a reasoning item nothing.
  predicate OutputRead(items: seq<Content>, output: seq<OutputItem>) {
    if output == [] then items == []
    else
      var first, rest := output[0], output[1..];
      || (&& first.kind == "message" && first.role in ["", "assistant"] && |first.content| <= |items|
          && TextsRead(items[..|first.content|], first.content) && OutputRead(items[|first.content|..], rest))
      || (items != [] && CallRead(items[0], first) && OutputRead(items[1..], rest))
      || (first.kind == "reasoning" && OutputRead(items, rest))
  }

  lemma {:induction false} TextsReadExactly(items: seq<Content>, outputs: seq<OutputContent>)
    ensures OutputsToIR(outputs) == Some(items) <==> TextsRead(items, outputs)
    decreases |outputs|
  {
    if outputs != [] {
      var n := |outputs| - 1;
      if |items| == n + 1 {
        TextsReadExactly(items[..n], outputs[..n]);
        assert items == items[..n] + [items[n]];
        assert OutputToIR(outputs[n]) == Some(items[n]) <==> TextRead(items[n], outputs[n]);
      } else if OutputsToIR(outputs[..n]).Some? {
        TextsReadExactly(OutputsToIR(outputs[..n]).value, outputs[..n]);
      }
    }
  }

  lemma {:induction false} ItemsFront(output: seq<OutputItem>)
    requires output != []
    ensures ItemsToIR(output) ==
            if ItemToIR(output[0]).None? || ItemsToIR(output[1..]).None? then None
            else Some(ItemToIR(output[0]).value + ItemsToIR(output[1..]).value)
  {
    hide ItemToIR;
    var n := |output| - 1;
    if n == 0 {
      assert output[..0] == [] && output[1..] == [];
      if ItemToIR(output[0]).Some? {
        assert [] + ItemToIR(output[0]).value == ItemToIR(output[0]).value + [];
      }
    } else {
      ItemsFront(output[..n]);
      assert output[..n][1..] == output[1..][..n - 1];
      if ItemsToIR(output[..n]).Some? && ItemToIR(output[n]).Some? {
        var first, rest, last := ItemToIR(output[0]).value, ItemsToIR(output[1..][..n - 1]).value, ItemToIR(output[n]).value;
        assert first + rest + last == first + (rest + last);
      }
    }
  }

  lemma {:induction false} OutputReadExactly(items: seq<Content>, output: seq<OutputItem>)
    ensures ItemsToIR(output) == Some(items) <==> OutputRead(items, output)
    decreases |output|
  {
    hide TextsRead;
    if output != [] {
      var first, rest := output[0], output[1..];
      ItemsFront(output);
      if first.kind == "message" {
        var n := |first.content|;
        MessageLength(first.content);
        if n <= |items| {
          TextsReadExactly(items[..n], first.content);
          OutputReadExactly(items[n..], rest);
          assert items == items[..n] + items[n..];
        }
      } else if first.kind == "function_call" && items != [] {
        OutputReadExactly(items[1..], rest);
        assert items == [items[0]] + items[1..];
      } else if first.kind == "reasoning" {
        OutputReadExactly(items, rest);
        assert ItemsToIR(rest).Some? ==> [] + ItemsToIR(rest).value == ItemsToIR(rest).value;
      }
    }
  }

  lemma MessageLength(outputs: seq<OutputContent>)
    ensures OutputsToIR(outputs).Some? ==> |OutputsToIR(outputs).value| == |outputs|
  {
    if OutputsToIR(outputs).Some? {
      TextsReadExactly(OutputsToIR(outputs).value, outputs);
    }
  }

  // A refusal anywhere filters a completed response; otherwise its calls finish it.
  predicate FinishRead(finish: Finish, response: WireResponse) {
    if response.status == "incomplete" then
      || (response.incomplete == Some("max_output_tokens") && finish == Length)
      || (response.incomplete == Some("content_filter") && finish == Filtered)
    else if exists item <- response.output :: item.kind == "message" && exists content <- item.content :: content.kind == "refusal" then
      finish == Filtered
    else if exists item <- response.output :: item.kind == "function_call" then finish == ToolCalls
    else finish == Stop
  }

  lemma {:induction false} CallsRead(items: seq<Content>, output: seq<OutputItem>)
    requires OutputRead(items, output)
    ensures (exists item <- items :: item.kind == Call) <==> exists item <- output :: item.kind == "function_call"
    decreases |output|
  {
    if output != [] {
      var first, rest := output[0], output[1..];
      assert output == [first] + rest;
      if first.kind == "message" {
        var n := |first.content|;
        assert items == items[..n] + items[n..];
        forall item <- items[..n]
          ensures item.kind == Text
        {
          var i :| 0 <= i < n && items[..n][i] == item;
          assert TextRead(items[..n][i], first.content[i]);
        }
        CallsRead(items[n..], rest);
      } else if first.kind == "function_call" {
        assert items[0] in items && first in output;
      } else {
        CallsRead(items, rest);
      }
    }
  }

  ghost predicate ResponseRead(read: Response, response: WireResponse, requestID: string, upstream: string) {
    && !response.failed && response.status in ["completed", "incomplete"]
    && OutputRead(read.content, response.output) && FinishRead(read.finishReason, response)
    && read.usage.inputTokens == response.usage.inputTokens && read.usage.outputTokens == response.usage.outputTokens
    && read.usage.cacheCreationInputTokens == 0
    && read.usage.cachedInputTokens == (if response.usage.cachedTokens == None then 0 else response.usage.cachedTokens.value)
    && read.version == "2026-07-12" && read.id == requestID && read.model == (if response.model != "" then response.model else upstream)
    && read.stopSequence == "" && read.providerResponseID == response.id
    && ValidResponse(read)
  }

  // A wire response is accepted exactly when it is done and well formed and what it has
  // been read into is valid; every field of the result comes from a field of the response.
  lemma ResponseReadExactly(read: Response, response: WireResponse, requestID: string, upstream: string)
    ensures ToIR(response, requestID, upstream) == Some(read) <==> ResponseRead(read, response, requestID, upstream)
  {
    OutputReadExactly(read.content, response.output);
    if OutputRead(read.content, response.output) {
      CallsRead(read.content, response.output);
      FinishReadExactly(read.finishReason, response, read.content);
    }
    hide ItemsToIR;
    hide OutputRead;
    hide FinishFor;
    hide FinishRead;
    hide ValidResponse;
  }

  lemma FinishReadExactly(finish: Finish, response: WireResponse, items: seq<Content>)
    requires (exists item <- items :: item.kind == Call) <==> exists item <- response.output :: item.kind == "function_call"
    ensures FinishFor(response, items) == Some(finish) <==> FinishRead(finish, response)
  {
  }

  // ---- Sending ----

  // The texts and the calls of the contents, each in their order.
  predicate Split(contents: seq<Content>, texts: seq<OutputContent>, calls: seq<OutputItem>) {
    if contents == [] then texts == [] && calls == []
    else
      var first, rest := contents[0], contents[1..];
      || (&& first.kind == Text && texts != [] && texts[0] == OutputContent("output_text", first.text, "", false)
          && Split(rest, texts[1..], calls))
      || (&& first.kind == Call && first.call.Some? && calls != []
          && calls[0] == OutputItem("function_call", "", [], first.call.value.id, first.call.value.name, first.call.value.arguments)
          && Split(rest, texts, calls[1..]))
  }

  lemma {:induction false} TextsFront(contents: seq<Content>)
    requires contents != []
    ensures Texts(contents) == (if contents[0].kind == Text then [contents[0]] else []) + Texts(contents[1..])
  {
    var n := |contents| - 1;
    if n == 0 {
      assert contents[..0] == [] && contents[1..] == [];
    } else {
      TextsFront(contents[..n]);
      assert contents[..n][1..] == contents[1..][..n - 1];
      var head, last := if contents[0].kind == Text then [contents[0]] else [], if contents[n].kind == Text then [contents[n]] else [];
      var middle := Texts(contents[1..][..n - 1]);
      assert head + middle + last == head + (middle + last);
    }
  }

  lemma {:induction false} CallsFront(contents: seq<Content>)
    requires contents != []
    ensures Calls(contents) == (if contents[0].kind == Call then [contents[0]] else []) + Calls(contents[1..])
  {
    var n := |contents| - 1;
    if n == 0 {
      assert contents[..0] == [] && contents[1..] == [];
    } else {
      CallsFront(contents[..n]);
      assert contents[..n][1..] == contents[1..][..n - 1];
      var head, last := if contents[0].kind == Call then [contents[0]] else [], if contents[n].kind == Call then [contents[n]] else [];
      var middle := Calls(contents[1..][..n - 1]);
      assert head + middle + last == head + (middle + last);
    }
  }

  lemma {:induction false} CallItemsFront(calls: seq<Content>)
    requires calls != []
    ensures CallItems(calls) == if calls[0].call.None? || CallItems(calls[1..]).None? then None
                                else Some([CallItem(calls[0].call.value)] + CallItems(calls[1..]).value)
  {
    var n := |calls| - 1;
    if n == 0 {
      assert calls[..0] == [] && calls[1..] == [];
      if calls[0].call.Some? {
        assert [] + [CallItem(calls[0].call.value)] == [CallItem(calls[0].call.value)] + [];
      }
    } else {
      CallItemsFront(calls[..n]);
      assert calls[..n][1..] == calls[1..][..n - 1];
      if calls[0].call.Some? && CallItems(calls[1..][..n - 1]).Some? && calls[n].call.Some? {
        var head, middle, last := [CallItem(calls[0].call.value)], CallItems(calls[1..][..n - 1]).value, [CallItem(calls[n].call.value)];
        assert head + middle + last == head + (middle + last);
      }
    }
  }

  lemma {:induction false} SplitExactly(contents: seq<Content>, texts: seq<OutputContent>, calls: seq<OutputItem>)
    ensures Portable(contents) && texts == Outputs(Texts(contents)) && CallItems(Calls(contents)) == Some(calls) <==> Split(contents, texts, calls)
    decreases |contents|
  {
    if contents != [] {
      var first, rest := contents[0], contents[1..];
      assert contents == [first] + rest;
      assert Portable(contents) <==> (first.kind == Text || first.kind == Call) && Portable(rest);
      TextsFront(contents);
      CallsFront(contents);
      if first.kind == Text {
        assert Outputs([first] + Texts(rest)) == [TextOutput(first.text)] + Outputs(Texts(rest));
        assert Calls(contents) == Calls(rest);
        if texts != [] {
          SplitExactly(rest, texts[1..], calls);
          assert texts == [texts[0]] + texts[1..];
        }
      } else if first.kind == Call {
        CallItemsFront(Calls(contents));
        assert Calls(contents)[1..] == Calls(rest) && Texts(contents) == Texts(rest);
        if calls != [] {
          SplitExactly(rest, texts, calls[1..]);
          assert calls == [calls[0]] + calls[1..];
        }
      }
    }
  }

  predicate FinishSent(status: string, incomplete: Option<string>, finish: Finish) {
    match finish
    case Length => status == "incomplete" && incomplete == Some("max_output_tokens")
    case Filtered => status == "incomplete" && incomplete == Some("content_filter")
    case Stop => status == "completed" && incomplete == None
    case ToolCalls => status == "completed" && incomplete == None
    case OtherFinish(_) => false
  }

  // The output is one message with the texts, if there are any, and then the calls.
  ghost predicate OutputSent(output: seq<OutputItem>, contents: seq<Content>) {
    exists texts, calls ::
      && Split(contents, texts, calls)
      && output == (if texts == [] then [] else [OutputItem("message", "assistant", texts, "", "", Missing)]) + calls
  }

  ghost predicate ResponseSent(sent: WireResponse, response: Response, requestedModel: string, responseID: string) {
    && ValidResponse(response) && OutputSent(sent.output, response.content)
    && FinishSent(sent.status, sent.incomplete, response.finishReason) && !sent.failed
    && sent.id == responseID && sent.model == requestedModel
    && sent.usage.inputTokens == response.usage.inputTokens && sent.usage.outputTokens == response.usage.outputTokens
    && sent.usage.cachedTokens == Some(response.usage.cachedInputTokens)
    && (sent.usage.totalTokens - response.usage.inputTokens - response.usage.outputTokens) % 0x1_0000_0000_0000_0000 == 0
  }

  lemma OutputSentExactly(output: seq<OutputItem>, contents: seq<Content>)
    ensures OutputSent(output, contents) <==>
            Portable(contents) && CallItems(Calls(contents)).Some? && output == OutputFor(Texts(contents), CallItems(Calls(contents)).value)
  {
    hide Split;
    hide Portable;
    forall texts: seq<OutputContent>, calls: seq<OutputItem>
      ensures Portable(contents) && texts == Outputs(Texts(contents)) && CallItems(Calls(contents)) == Some(calls) <==> Split(contents, texts, calls)
    {
      SplitExactly(contents, texts, calls);
    }
    if CallItems(Calls(contents)).Some? {
      assert Split(contents, Outputs(Texts(contents)), CallItems(Calls(contents)).value) <==> Portable(contents);
    }
    assert |Outputs(Texts(contents))| == |Texts(contents)|;
  }

  // A valid response is sent exactly when it has no image; what is sent says what it says.
  lemma ResponseSentExactly(sent: WireResponse, response: Response, requestedModel: string, responseID: string)
    ensures FromIR(response, requestedModel, responseID) == Some(sent) <==> ResponseSent(sent, response, requestedModel, responseID)
  {
    hide OutputSent;
    hide OutputFor;
    hide Portable;
    hide ValidContent;
    OutputSentExactly(sent.output, response.content);
    WrapExactly(response.usage.inputTokens + response.usage.outputTokens, sent.usage.totalTokens);
    hide Wrap;
  }

  lemma WrapExactly(n: int, value: Int)
    ensures Wrap(n) == value <==> (value - n) % 0x1_0000_0000_0000_0000 == 0
  {
  }
}
