// The OpenAI Responses form of a response, and that passing through it twice changes
// nothing that passing through it once did not.
module Responses {
  import opened Options
  import opened IR

  // `annotated` stands for annotations or logprobs.
  datatype OutputContent = OutputContent(kind: string, text: string, refusal: string, annotated: bool)

  // A function call's arguments are a string, which is read as JSON.
  datatype OutputItem = OutputItem(kind: string, role: string, content: seq<OutputContent>, callID: string, name: string, arguments: Json)

  datatype WireUsage = WireUsage(inputTokens: Int, outputTokens: Int, totalTokens: Int, cachedTokens: Option<Int>)

  datatype WireResponse = WireResponse(
    id: string, status: string, failed: bool, incomplete: Option<string>, model: string, output: seq<OutputItem>, usage: WireUsage)

  // ---- The provider-neutral response to the wire ----

  function TextOutput(text: string): OutputContent {
    OutputContent("output_text", text, "", false)
  }

  function MessageItem(content: seq<OutputContent>): OutputItem {
    OutputItem("message", "assistant", content, "", "", Missing)
  }

  function CallItem(call: ToolCall): OutputItem {
    OutputItem("function_call", "", [], call.id, call.name, call.arguments)
  }

  function Texts(contents: seq<Content>): seq<Content> {
    if contents == [] then []
    else
      var last := contents[|contents| - 1];
      Texts(contents[..|contents| - 1]) + if last.kind == Text then [last] else []
  }

  function Calls(contents: seq<Content>): seq<Content> {
    if contents == [] then []
    else
      var last := contents[|contents| - 1];
      Calls(contents[..|contents| - 1]) + if last.kind == Call then [last] else []
  }

  function Outputs(texts: seq<Content>): seq<OutputContent> {
    seq(|texts|, i requires 0 <= i < |texts| => TextOutput(texts[i].text))
  }

  function CallItems(calls: seq<Content>): Option<seq<OutputItem>> {
    if calls == [] then Some([])
    else
      var init, last := CallItems(calls[..|calls| - 1]), calls[|calls| - 1];
      if init.None? || last.call.None? then None else Some(init.value + [CallItem(last.call.value)])
  }

  function StatusFor(finish: Finish): (string, Option<string>) {
    match finish
    case Length => ("incomplete", Some("max_output_tokens"))
    case Filtered => ("incomplete", Some("content_filter"))
    case _ => ("completed", None)
  }

  predicate Portable(contents: seq<Content>) {
    forall content <- contents :: content.kind == Text || content.kind == Call
  }

  function WireFor(response: Response, requestedModel: string, responseID: string, output: seq<OutputItem>): WireResponse {
    WireResponse(
      responseID, StatusFor(response.finishReason).0, false, StatusFor(response.finishReason).1, requestedModel, output,
      WireUsage(response.usage.inputTokens, response.usage.outputTokens, Wrap(response.usage.inputTokens + response.usage.outputTokens),
                Some(response.usage.cachedInputTokens)))
  }

  // One message with all texts, if there are any, and then the calls.
  ghost function FromIR(response: Response, requestedModel: string, responseID: string): Option<WireResponse> {
    var calls := CallItems(Calls(response.content));
    if !ValidResponse(response) || !Portable(response.content) || calls.None? then None
    else Some(WireFor(response, requestedModel, responseID, OutputFor(Texts(response.content), calls.value)))
  }

  // ---- The wire to the provider-neutral response ----

  function OutputToIR(content: OutputContent): Option<Content> {
    if content.kind == "output_text" then if content.annotated then None else Some(TextContent(content.text))
    else if content.kind == "refusal" then Some(TextContent(content.refusal))
    else None
  }

  function OutputsToIR(contents: seq<OutputContent>): Option<seq<Content>> {
    if contents == [] then Some([])
    else
      var init, item := OutputsToIR(contents[..|contents| - 1]), OutputToIR(contents[|contents| - 1]);
      if init.None? || item.None? then None else Some(init.value + [item.value])
  }

  // Reasoning items are dropped.
  function ItemToIR(item: OutputItem): Option<seq<Content>> {
    if item.kind == "message" then if item.role == "" || item.role == "assistant" then OutputsToIR(item.content) else None
    else if item.kind == "function_call" then
      if item.callID == "" || item.name == "" || !item.arguments.IsObject() then None
      else Some([CallContent(ToolCall(item.callID, item.name, item.arguments, ""))])
    else if item.kind == "reasoning" then Some([])
    else None
  }

  function ItemsToIR(items: seq<OutputItem>): Option<seq<Content>> {
    if items == [] then Some([])
    else
      var init, last := ItemsToIR(items[..|items| - 1]), ItemToIR(items[|items| - 1]);
      if init.None? || last.None? then None else Some(init.value + last.value)
  }

  predicate HasRefusal(contents: seq<OutputContent>) {
    exists content <- contents :: content.kind == "refusal"
  }

  predicate Refused(items: seq<OutputItem>) {
    exists item <- items :: item.kind == "message" && HasRefusal(item.content)
  }

  function FinishFor(response: WireResponse, content: seq<Content>): Option<Finish> {
    if response.status == "incomplete" then
      match response.incomplete
      case Some("max_output_tokens") => Some(Length)
      case Some("content_filter") => Some(Filtered)
      case _ => None
    else if Refused(response.output) then Some(Filtered)
    else if exists item <- content :: item.kind == Call then Some(ToolCalls)
    else Some(Stop)
  }

  ghost function ToIR(response: WireResponse, requestID: string, upstream: string): Option<Response> {
    var content := ItemsToIR(response.output);
    if response.failed || (response.status != "completed" && response.status != "incomplete") || content.None? then None
    else
      var finish := FinishFor(response, content.value);
      if finish.None? then None
      else
        var result := Response(VERSION, requestID, if response.model == "" then upstream else response.model, content.value, finish.value, "",
                               Usage(response.usage.inputTokens, response.usage.outputTokens, 0,
                                     if response.usage.cachedTokens.Some? then response.usage.cachedTokens.value else 0),
                               response.id);
        if ValidResponse(result) then Some(result) else None
  }

  // ---- The normal form ----

  // Texts then calls, each in their order and without the signatures the wire cannot carry.
  function Unsigned(calls: seq<Content>): seq<Content> {
    if calls == [] then []
    else
      var last := calls[|calls| - 1];
      Unsigned(calls[..|calls| - 1]) + if last.call.Some? then [CallContent(last.call.value.(signature := ""))] else [last]
  }

  function Partition(contents: seq<Content>): seq<Content> {
    Texts(contents) + Unsigned(Calls(contents))
  }

  function NormalFinish(response: Response): Finish {
    if response.finishReason == Length || response.finishReason == Filtered then response.finishReason
    else if Calls(response.content) != [] then ToolCalls
    else Stop
  }

  function Normal(response: Response, requestedModel: string, responseID: string, requestID: string, upstream: string): Response {
    Response(VERSION, requestID, if requestedModel == "" then upstream else requestedModel, Partition(response.content),
             NormalFinish(response), "", response.usage.(cacheCreationInputTokens := 0), responseID)
  }

  lemma {:induction false} Sorted(contents: seq<Content>)
    ensures forall item :: item in Texts(contents) <==> item in contents && item.kind == Text
    ensures forall item :: item in Calls(contents) <==> item in contents && item.kind == Call
  {
    if contents != [] {
      Sorted(contents[..|contents| - 1]);
      assert contents == contents[..|contents| - 1] + [contents[|contents| - 1]];
    }
  }

  lemma {:induction false} OutputsReturn(texts: seq<Content>)
    requires forall item <- texts :: item.kind == Text && ValidContent(item)
    ensures OutputsToIR(Outputs(texts)) == Some(texts)
  {
    if texts != [] {
      var init, last := texts[..|texts| - 1], texts[|texts| - 1];
      OutputsReturn(init);
      assert Outputs(texts)[..|texts| - 1] == Outputs(init);
      assert last in texts && TextContent(last.text) == last;
      assert texts == init + [last];
    }
  }

  lemma {:induction false} ItemsReturn(calls: seq<Content>)
    requires forall item <- calls :: item.kind == Call && ValidContent(item)
    ensures CallItems(calls).Some? && |CallItems(calls).value| == |calls| && ItemsToIR(CallItems(calls).value) == Some(Unsigned(calls))
    ensures forall item <- CallItems(calls).value :: item.kind == "function_call"
  {
    if calls != [] {
      var init, last := calls[..|calls| - 1], calls[|calls| - 1];
      assert last in calls;
      ItemsReturn(init);
      assert CallItems(calls).value == CallItems(init).value + [CallItem(last.call.value)];
      assert CallItems(calls).value[..|init|] == CallItems(init).value;
      assert Unsigned(calls) == Unsigned(init) + [CallContent(last.call.value.(signature := ""))];
    }
  }

  lemma {:induction false} ItemsToIRJoin(left: seq<OutputItem>, right: seq<OutputItem>)
    requires ItemsToIR(left).Some? && ItemsToIR(right).Some?
    ensures ItemsToIR(left + right) == Some(ItemsToIR(left).value + ItemsToIR(right).value)
    decreases |right|
  {
    var all := left + right;
    if right == [] {
      assert all == left && ItemsToIR(left).value + [] == ItemsToIR(left).value;
    } else {
      var n := |right| - 1;
      assert all[..|all| - 1] == left + right[..n];
      ItemsToIRJoin(left, right[..n]);
      var last := ItemToIR(right[n]).value;
      assert ItemsToIR(left).value + (ItemsToIR(right[..n]).value + last) == ItemsToIR(left).value + ItemsToIR(right[..n]).value + last;
    }
  }

  lemma OneMessage(texts: seq<Content>)
    requires forall item <- texts :: item.kind == Text && ValidContent(item)
    ensures ItemsToIR(if texts == [] then [] else [MessageItem(Outputs(texts))]) == Some(texts)
  {
    if texts != [] {
      OutputsReturn(texts);
      var one := [MessageItem(Outputs(texts))];
      assert one[..0] == [] && [] + texts == texts;
    }
  }

  ghost predicate AllCalls(calls: seq<Content>) {
    forall item <- calls :: item.kind == Call && ValidContent(item)
  }

  ghost predicate AllTexts(texts: seq<Content>) {
    forall item <- texts :: item.kind == Text && ValidContent(item)
  }

  lemma {:induction false} UnsignedCalls(calls: seq<Content>)
    requires AllCalls(calls)
    ensures AllCalls(Unsigned(calls)) && |Unsigned(calls)| == |calls| && Unsigned(Unsigned(calls)) == Unsigned(calls)
  {
    if calls != [] {
      var init, last := calls[..|calls| - 1], calls[|calls| - 1];
      assert last in calls;
      UnsignedCalls(init);
      assert Unsigned(calls)[..|init|] == Unsigned(init);
    }
  }

  lemma PartsValid(contents: seq<Content>)
    requires Portable(contents) && forall item <- contents :: ValidContent(item)
    ensures AllTexts(Texts(contents)) && AllCalls(Calls(contents))
  {
    Sorted(contents);
  }

  function OutputFor(texts: seq<Content>, calls: seq<OutputItem>): seq<OutputItem> {
    (if texts == [] then [] else [MessageItem(Outputs(texts))]) + calls
  }

  lemma NotRefused(texts: seq<Content>, calls: seq<OutputItem>)
    requires forall item <- calls :: item.kind == "function_call"
    ensures !Refused(OutputFor(texts, calls))
  {
  }

  lemma OutputReturns(texts: seq<Content>, calls: seq<Content>)
    requires AllTexts(texts) && AllCalls(calls)
    ensures CallItems(calls).Some?
    ensures ItemsToIR(OutputFor(texts, CallItems(calls).value)) == Some(texts + Unsigned(calls)) && !Refused(OutputFor(texts, CallItems(calls).value))
  {
    OneMessage(texts);
    ItemsReturn(calls);
    NotRefused(texts, CallItems(calls).value);
    ItemsToIRJoin(if texts == [] then [] else [MessageItem(Outputs(texts))], CallItems(calls).value);
  }

  lemma PartitionValid(texts: seq<Content>, calls: seq<Content>)
    requires AllTexts(texts) && AllCalls(calls)
    ensures Portable(texts + calls) && (forall item <- texts + calls :: ValidContent(item))
    ensures (exists item <- texts + calls :: item.kind == Call) <==> calls != []
  {
    if calls != [] {
      assert calls[0] in calls && calls[0] in texts + calls;
    }
  }

  // A valid response without images is sent, and what comes back is its normal form: its
  // texts and then its calls in order, the same usage, the finish its calls imply. It comes
  // back exactly when the request has an ID and the response gets a model.
  lemma ReturnsNormal(response: Response, requestedModel: string, responseID: string, requestID: string, upstream: string)
    requires ValidResponse(response)
    ensures FromIR(response, requestedModel, responseID).Some? <==> Portable(response.content)
    ensures Portable(response.content) ==>
              ToIR(FromIR(response, requestedModel, responseID).value, requestID, upstream) ==
              if requestID != "" && (requestedModel != "" || upstream != "")
              then Some(Normal(response, requestedModel, responseID, requestID, upstream)) else None
  {
    hide ValidContent;
    hide Portable;
    if Portable(response.content) {
      ContentReturns(response);
      var wire := FromIR(response, requestedModel, responseID).value;
      FinishReturns(response, wire);
      NormalValid(response, requestedModel, responseID, requestID, upstream);
      hide OutputFor;
      hide ItemsToIR;
      hide FinishFor;
      hide Normal;
      hide ValidResponse;
      assert ItemsToIR(wire.output) == Some(Partition(response.content));
    }
  }

  lemma ContentReturns(response: Response)
    requires ValidResponse(response) && Portable(response.content)
    ensures CallItems(Calls(response.content)).Some?
    ensures var output := OutputFor(Texts(response.content), CallItems(Calls(response.content)).value);
            ItemsToIR(output) == Some(Partition(response.content)) && !Refused(output)
    ensures Portable(Partition(response.content)) && (forall item <- Partition(response.content) :: ValidContent(item))
    ensures (exists item <- Partition(response.content) :: item.kind == Call) <==> Calls(response.content) != []
  {
    var texts, calls := Texts(response.content), Calls(response.content);
    PartsValid(response.content);
    OutputReturns(texts, calls);
    UnsignedCalls(calls);
    PartitionValid(texts, Unsigned(calls));
  }

  lemma FinishReturns(response: Response, wire: WireResponse)
    requires (wire.status, wire.incomplete) == StatusFor(response.finishReason) && !Refused(wire.output)
    requires (exists item <- Partition(response.content) :: item.kind == Call) <==> Calls(response.content) != []
    ensures FinishFor(wire, Partition(response.content)) == Some(NormalFinish(response))
  {
  }

  lemma NormalValid(response: Response, requestedModel: string, responseID: string, requestID: string, upstream: string)
    requires ValidResponse(response) && Portable(Partition(response.content))
    requires forall item <- Partition(response.content) :: ValidContent(item)
    ensures ValidResponse(Normal(response, requestedModel, responseID, requestID, upstream))
       <==> requestID != "" && (requestedModel != "" || upstream != "")
  {
    hide ValidContent;
  }

  // ---- Idempotence ----

  lemma SortedAppend(items: seq<Content>, last: Content)
    ensures Texts(items + [last]) == if last.kind == Text then Texts(items) + [last] else Texts(items)
    ensures Calls(items + [last]) == if last.kind == Call then Calls(items) + [last] else Calls(items)
  {
    assert (items + [last])[..|items|] == items;
    assert Texts(items) + [] == Texts(items) && Calls(items) + [] == Calls(items);
  }

  lemma {:induction false} SortedTexts(texts: seq<Content>)
    requires AllTexts(texts)
    ensures Texts(texts) == texts && Calls(texts) == []
  {
    hide ValidContent;
    if texts != [] {
      var init, last := texts[..|texts| - 1], texts[|texts| - 1];
      assert last in texts && texts == init + [last];
      SortedTexts(init);
    }
  }

  lemma {:induction false} SortedParts(texts: seq<Content>, calls: seq<Content>)
    requires AllTexts(texts) && AllCalls(calls)
    ensures Texts(texts + calls) == texts && Calls(texts + calls) == calls
    decreases |calls|
  {
    hide ValidContent;
    if calls == [] {
      SortedTexts(texts);
      assert texts + calls == texts;
    } else {
      var init, last := calls[..|calls| - 1], calls[|calls| - 1];
      assert last in calls && calls == init + [last];
      assert texts + calls == (texts + init) + [last];
      SortedParts(texts, init);
      SortedAppend(texts + init, last);
    }
  }

  // Normalising a normal form changes nothing.
  lemma NormalTwice(response: Response, requestedModel: string, responseID: string, requestID: string, upstream: string)
    requires ValidResponse(response) && Portable(response.content)
    ensures var once := Normal(response, requestedModel, responseID, requestID, upstream);
            Normal(once, requestedModel, responseID, requestID, upstream) == once
  {
    var texts, calls := Texts(response.content), Calls(response.content);
    PartsValid(response.content);
    UnsignedCalls(calls);
    SortedParts(texts, Unsigned(calls));
  }

  // Sending and reading twice yields what doing so once does.
  lemma TranslationIdempotent(response: Response, requestedModel: string, responseID: string, requestID: string, upstream: string)
    requires ValidResponse(response) && Portable(response.content) && requestID != "" && (requestedModel != "" || upstream != "")
    ensures FromIR(response, requestedModel, responseID).Some?
    ensures var once := ToIR(FromIR(response, requestedModel, responseID).value, requestID, upstream);
            && once.Some? && FromIR(once.value, requestedModel, responseID).Some?
            && ToIR(FromIR(once.value, requestedModel, responseID).value, requestID, upstream) == once
  {
    ReturnsNormal(response, requestedModel, responseID, requestID, upstream);
    var once := ToIR(FromIR(response, requestedModel, responseID).value, requestID, upstream).value;
    PartsValid(response.content);
    UnsignedCalls(Calls(response.content));
    PartitionValid(Texts(response.content), Unsigned(Calls(response.content)));
    ReturnsNormal(once, requestedModel, responseID, requestID, upstream);
    NormalTwice(response, requestedModel, responseID, requestID, upstream);
  }

  // ---- The code ----

  // What the loop has made of the contents so far.
  ghost predicate Built(contents: seq<Content>, message: seq<OutputContent>, calls: seq<OutputItem>) {
    Portable(contents) && message == Outputs(Texts(contents)) && CallItems(Calls(contents)) == Some(calls)
  }

  lemma BuiltNext(contents: seq<Content>, i: nat, message: seq<OutputContent>, calls: seq<OutputItem>)
    requires i < |contents| && Built(contents[..i], message, calls)
    ensures contents[i].kind == Text ==> Built(contents[..i + 1], message + [TextOutput(contents[i].text)], calls)
    ensures contents[i].kind == Call && contents[i].call.Some? ==>
              Built(contents[..i + 1], message, calls + [CallItem(contents[i].call.value)])
    ensures contents[i].kind != Text && contents[i].kind != Call ==> !Portable(contents)
  {
    PartsNext(contents, i);
    assert Outputs(Texts(contents[..i])) + [] == Outputs(Texts(contents[..i]));
  }

  lemma AllBuilt(response: Response, requestedModel: string, responseID: string, message: seq<OutputContent>, calls: seq<OutputItem>)
    requires ValidResponse(response) && Built(response.content, message, calls)
    ensures FromIR(response, requestedModel, responseID) ==
            Some(WireFor(response, requestedModel, responseID, if |message| > 0 then [MessageItem(message)] + calls else calls))
  {
    hide ValidResponse;
    assert |message| == |Texts(response.content)| && [] + calls == calls;
  }

  // The loop over the contents: texts go into one message, calls become items.
  method SortOutput(contents: seq<Content>) returns (sorted: Option<(seq<OutputContent>, seq<OutputItem>)>)
    requires forall content <- contents :: content.kind == Call ==> content.call.Some?
    ensures sorted.Some? <==> Portable(contents)
    ensures sorted.Some? ==> Built(contents, sorted.value.0, sorted.value.1)
  {
    var message: seq<OutputContent>, output: seq<OutputItem> := [], [];
    NoParts();
    for i := 0 to |contents|
      invariant Built(contents[..i], message, output)
    {
      var content := contents[i];
      BuiltNext(contents, i, message, output);
      if content.kind == Text {
        message := message + [TextOutput(content.text)];
      } else if content.kind == Call {
        assert content in contents;
        output := output + [CallItem(content.call.value)];
      } else {
        return None;
      }
    }
    assert contents[..|contents|] == contents;
    return Some((message, output));
  }

  method FromIRResponse(response: Response, requestedModel: string, responseID: string) returns (wire: Option<WireResponse>)
    ensures wire == FromIR(response, requestedModel, responseID)
  {
    NotSent(response, requestedModel, responseID);
    var valid := ValidateResponse(response);
    if !valid {
      return None;
    }
    assert forall content <- response.content :: content.kind == Call ==> content.call.Some?;
    var sorted := SortOutput(response.content);
    if sorted.None? {
      return None;
    }
    var (message, output) := sorted.value;
    AllBuilt(response, requestedModel, responseID, message, output);
    hide FromIR;
    if |message| > 0 {
      output := [MessageItem(message)] + output;
    }
    return Some(WireFor(response, requestedModel, responseID, output));
  }

  lemma NotSent(response: Response, requestedModel: string, responseID: string)
    ensures !ValidResponse(response) || !Portable(response.content) ==> FromIR(response, requestedModel, responseID).None?
  {
  }

  lemma NoParts()
    ensures Built([], [], [])
  {
  }

  lemma PartsNext(contents: seq<Content>, i: nat)
    requires i < |contents|
    ensures var before, content, after := contents[..i], contents[i], contents[..i + 1];
            && Texts(after) == Texts(before) + (if content.kind == Text then [content] else [])
            && Calls(after) == Calls(before) + (if content.kind == Call then [content] else [])
            && Outputs(Texts(after)) == Outputs(Texts(before)) + (if content.kind == Text then [TextOutput(content.text)] else [])
            && (content.kind == Call && content.call.Some? && CallItems(Calls(before)).Some? ==>
                  CallItems(Calls(after)) == Some(CallItems(Calls(before)).value + [CallItem(content.call.value)]))
            && (content.kind != Call ==> CallItems(Calls(after)) == CallItems(Calls(before)))
            && (Portable(after) <==> Portable(before) && (content.kind == Text || content.kind == Call))
            && (Portable(contents) ==> Portable(after))
  {
    var before, content, after := contents[..i], contents[i], contents[..i + 1];
    assert after[..i] == before && after == before + [content];
    assert Texts(before) + [] == Texts(before) && Calls(before) + [] == Calls(before);
    if content.kind == Call {
      assert (Calls(before) + [content])[..|Calls(before)|] == Calls(before);
    }
  }

  lemma {:induction false} ItemsStop(items: seq<OutputItem>, n: nat)
    requires n <= |items| && ItemsToIR(items[..n]).None?
    ensures ItemsToIR(items).None?
    decreases |items| - n
  {
    if n < |items| {
      assert items[..n + 1][..n] == items[..n];
      ItemsStop(items, n + 1);
    } else {
      assert items[..n] == items;
    }
  }

  lemma {:induction false} OutputsStop(contents: seq<OutputContent>, n: nat)
    requires n <= |contents| && OutputsToIR(contents[..n]).None?
    ensures OutputsToIR(contents).None?
    decreases |contents| - n
  {
    if n < |contents| {
      assert contents[..n + 1][..n] == contents[..n];
      OutputsStop(contents, n + 1);
    } else {
      assert contents[..n] == contents;
    }
  }

  method ReadMessage(item: OutputItem) returns (texts: Option<seq<Content>>, refused: bool)
    requires item.kind == "message"
    ensures texts == ItemToIR(item)
    ensures texts.Some? ==> refused == HasRefusal(item.content)
  {
    if item.role != "" && item.role != "assistant" {
      return None, false;
    }
    var result: seq<Content>, contents := [], item.content;
    refused := false;
    for i := 0 to |contents|
      invariant OutputsToIR(contents[..i]) == Some(result)
      invariant refused == HasRefusal(contents[..i])
    {
      assert contents[..i + 1][..i] == contents[..i] && contents[..i + 1] == contents[..i] + [contents[i]];
      var text := OutputToIR(contents[i]);
      if text.None? {
        OutputsStop(contents, i + 1);
        return None, refused;
      }
      refused := refused || contents[i].kind == "refusal";
      result := result + [text.value];
    }
    assert contents[..|contents|] == contents;
    return Some(result), refused;
  }

  method ToIRResponse(response: WireResponse, requestID: string, upstream: string) returns (translated: Option<Response>)
    ensures translated == ToIR(response, requestID, upstream)
  {
    if response.failed || (response.status != "completed" && response.status != "incomplete") {
      return None;
    }
    var items, content: seq<Content>, refused := response.output, [], false;
    for i := 0 to |items|
      invariant ItemsToIR(items[..i]) == Some(content)
      invariant refused == Refused(items[..i])
    {
      assert items[..i + 1][..i] == items[..i] && items[..i + 1] == items[..i] + [items[i]];
      var next: Option<seq<Content>> := None;
      if items[i].kind == "message" {
        var refusal: bool;
        next, refusal := ReadMessage(items[i]);
        refused := refused || refusal;
      } else {
        next := ItemToIR(items[i]);
      }
      if next.None? {
        ItemsStop(items, i + 1);
        return None;
      }
      content := content + next.value;
    }
    assert items[..|items|] == items;
    var finish := FinishFor(response, content);
    if finish.None? {
      return None;
    }
    var result := Response(VERSION, requestID, if response.model == "" then upstream else response.model, content, finish.value, "",
                           Usage(response.usage.inputTokens, response.usage.outputTokens, 0,
                                 if response.usage.cachedTokens.Some? then response.usage.cachedTokens.value else 0),
                           response.id);
    var valid := ValidateResponse(result);
    return if valid then Some(result) else None;
  }
}
