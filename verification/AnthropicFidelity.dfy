// What a client's Anthropic messages have become in the provider-neutral request, and what
// any provider-neutral content becomes in the provider's, in terms of their own fields.
module AnthropicFidelity {
  import opened Options
  import opened Text
  import opened IR
  import opened Anthropic
  import opened AnthropicRequest

  // ---- The client's content ----

  predicate NoInput(block: ClientBlock) {
    block.input == Missing || block.input == Null
  }

  predicate ImageRead(image: Image, source: ImageSource) {
    || (&& source == ImageSource("base64", NoURL, source.mediaType, source.data)
        && source.mediaType in ["image/jpeg", "image/png", "image/gif", "image/webp"] && source.data.Base64?
        && image == Image(NoURL, source.mediaType, source.data))
    || (&& source == ImageSource("url", source.url, "", NoData) && source.url.HttpURL?
        && image == Image(source.url, "", NoData))
  }

  // A block has the fields of its kind and no others, where the role allows that kind, and
  // the item says what it says. Calls and results do not nest.
  predicate BlockRead(item: Content, block: ClientBlock, role: string, nested: bool)
    decreases block, 1
  {
    || (&& block == ClientBlock("text", block.text, None, "", "", block.input, "", NoContent, false) && NoInput(block)
        && item == Content(Text, block.text, None, None, None))
    || (&& block == ClientBlock("image", "", block.source, "", "", block.input, "", NoContent, false) && NoInput(block)
        && role == "user" && block.source.Some? && item.image.Some? && ImageRead(item.image.value, block.source.value)
        && item == Content(Picture, "", item.image, None, None))
    || (&& block == ClientBlock("tool_use", "", None, block.id, block.name, block.input, "", NoContent, false)
        && !nested && role == "assistant" && block.id != "" && !Blank(block.name) && block.input.IsObject()
        && item == Content(Call, "", None, Some(ToolCall(block.id, TrimSpace(block.name), block.input, "")), None))
    || (&& block == ClientBlock("tool_result", "", None, "", "", block.input, block.toolUseID, block.content, block.isError) && NoInput(block)
        && !nested && role == "user" && block.toolUseID != "" && item.answer.Some?
        && ContentRead(item.answer.value.content, block.content, "user", true)
        && item == Content(Answer, "", None, None, Some(ToolResult(block.toolUseID, "", item.answer.value.content, Missing, block.isError))))
  }

  // A string is one text; a list is not empty and is read block by block.
  predicate ContentRead(items: seq<Content>, content: ClientContent, role: string, nested: bool)
    decreases content, 1
  {
    match content
    case StringContent(text) => items == [Content(Text, text, None, None, None)]
    case Blocks(blocks) => blocks != [] && BlocksRead(items, content, |blocks|, role, nested)
    case _ => false
  }

  predicate BlocksRead(items: seq<Content>, content: ClientContent, n: nat, role: string, nested: bool)
    requires content.Blocks? && n <= |content.blocks|
    decreases content, 0
  {
    |items| == n && forall i :: 0 <= i < n ==> BlockRead(items[i], content.blocks[i], role, nested)
  }

  lemma {:induction false} BlockReadExactly(item: Content, block: ClientBlock, role: string, nested: bool)
    ensures BlockToIR(block, role, nested) == Some(item) <==> BlockRead(item, block, role, nested)
    decreases block, 1, 0
  {
    TrimSpaceEmpties(block.name);
    if block.kind == "tool_result" {
      if item.answer.Some? {
        ReadExactly(item.answer.value.content, block.content, "user", true);
      }
    } else if block.kind == "image" {
      assert block.source.Some? && item.image.Some? ==> (ParseImage(block.source) == item.image <==> ImageRead(item.image.value, block.source.value));
    }
  }

  // Content is accepted exactly when every block is well formed and allowed where it
  // stands; each item of the result then says what its block says.
  lemma {:induction false} ReadExactly(items: seq<Content>, content: ClientContent, role: string, nested: bool)
    ensures ContentToIR(content, role, nested) == Some(items) <==> ContentRead(items, content, role, nested)
    decreases content, 1, 0
  {
    if content.Blocks? {
      BlocksReadExactly(items, content, |content.blocks|, role, nested);
    }
  }

  lemma {:induction false} BlocksReadExactly(items: seq<Content>, content: ClientContent, n: nat, role: string, nested: bool)
    requires content.Blocks? && n <= |content.blocks|
    ensures BlocksToIR(content, n, role, nested) == Some(items) <==> BlocksRead(items, content, n, role, nested)
    decreases content, 0, n
  {
    hide BlockToIR;
    hide BlockRead;
    if n > 0 && |items| == n {
      var init, last := items[..n - 1], items[n - 1];
      BlocksReadExactly(init, content, n - 1, role, nested);
      BlockReadExactly(last, content.blocks[n - 1], role, nested);
      assert items == init + [last];
      assert forall i :: 0 <= i < n - 1 ==> init[i] == items[i];
    } else if n > 0 {
      BlocksLength(content, n, role, nested);
    }
  }

  lemma {:induction false} BlocksLength(content: ClientContent, n: nat, role: string, nested: bool)
    requires content.Blocks? && n <= |content.blocks|
    ensures BlocksToIR(content, n, role, nested).Some? ==> |BlocksToIR(content, n, role, nested).value| == n
    decreases n
  {
    if n > 0 {
      BlocksLength(content, n - 1, role, nested);
    }
  }

  // ---- Names ----

  predicate LastCall(items: seq<Content>, j: nat, id: string) {
    CallsAt(items, j, id) && forall k :: j < k < |items| ==> !CallsAt(items, k, id)
  }

  lemma {:induction false} CallNameLast(items: seq<Content>, j: nat, id: string)
    requires LastCall(items, j, id)
    ensures CallName(items, id) == items[j].call.value.name
  {
    var n := |items| - 1;
    if j < n {
      assert !CallsAt(items, n, id);
      forall k | j < k < n
        ensures !CallsAt(items[..n], k, id)
      {
        assert !CallsAt(items, k, id);
      }
      CallNameLast(items[..n], j, id);
    }
  }

  lemma {:induction false} SomeLastCall(items: seq<Content>, id: string)
    requires HasCall(items, id)
    ensures exists j: nat :: LastCall(items, j, id)
  {
    var n := |items| - 1;
    var i: nat :| CallsAt(items, i, id);
    if CallsAt(items, n, id) {
      assert LastCall(items, n, id);
    } else {
      assert CallsAt(items[..n], i, id);
      SomeLastCall(items[..n], id);
      var j: nat :| LastCall(items[..n], j, id);
      forall k | j < k <= n
        ensures !CallsAt(items, k, id)
      {
        assert k < n ==> !CallsAt(items[..n], k, id);
      }
      assert LastCall(items, j, id);
    }
  }

  // A call is new; a result has an earlier call with its ID and takes that call's name.
  ghost predicate ItemNamed(named: Content, item: Content, before: seq<Content>) {
    && (item.kind == Call && item.call.Some? ==> forall j: nat :: !CallsAt(before, j, item.call.value.id))
    && (if item.kind == Answer && item.answer.Some? then
          exists j: nat ::
            && LastCall(before, j, item.answer.value.callID)
            && named == item.(answer := Some(item.answer.value.(name := before[j].call.value.name)))
        else named == item)
  }

  lemma ItemNamedExactly(named: Content, item: Content, before: seq<Content>)
    ensures NameItem(item, before) == Some(named) <==> ItemNamed(named, item, before)
  {
    if item.kind == Answer && item.answer.Some? {
      var id := item.answer.value.callID;
      if HasCall(before, id) {
        SomeLastCall(before, id);
      }
      forall j: nat | LastCall(before, j, id)
        ensures CallName(before, id) == before[j].call.value.name && HasCall(before, id)
      {
        CallNameLast(before, j, id);
      }
    }
  }

  ghost predicate ItemsNamed(named: seq<Content>, items: seq<Content>, n: nat, before: seq<Content>)
    requires n <= |items|
  {
    |named| == n && forall i :: 0 <= i < n ==> ItemNamed(named[i], items[i], before + named[..i])
  }

  lemma NamedAppend(init: seq<Content>, last: Content, items: seq<Content>, n: nat, before: seq<Content>)
    requires 0 < n <= |items| && |init| == n - 1
    ensures ItemsNamed(init + [last], items, n, before) <==>
            ItemsNamed(init, items, n - 1, before) && ItemNamed(last, items[n - 1], before + init)
  {
    hide ItemNamed;
    var named := init + [last];
    forall i | 0 <= i < n
      ensures named[..i] == if i < n - 1 then init[..i] else init
      ensures named[i] == if i < n - 1 then init[i] else last
    {
    }
    if ItemsNamed(named, items, n, before) {
      assert ItemNamed(named[n - 1], items[n - 1], before + named[..n - 1]);
      forall i | 0 <= i < n - 1
        ensures ItemNamed(init[i], items[i], before + init[..i])
      {
        assert ItemNamed(named[i], items[i], before + named[..i]);
      }
    }
  }

  lemma {:induction false} ItemsNamedExactly(named: seq<Content>, items: seq<Content>, n: nat, before: seq<Content>)
    requires n <= |items|
    ensures NameItems(items, n, before) == Some(named) <==> ItemsNamed(named, items, n, before)
  {
    hide NameItem;
    hide ItemsNamed;
    NamedLength(named, items, n, before);
    if n > 0 && |named| == n {
      var init, last := named[..n - 1], named[n - 1];
      ItemsNamedExactly(init, items, n - 1, before);
      ItemNamedExactly(last, items[n - 1], before + init);
      assert named == init + [last];
      NamedAppend(init, last, items, n, before);
    }
  }

  lemma NamedLength(named: seq<Content>, items: seq<Content>, n: nat, before: seq<Content>)
    requires n <= |items|
    ensures ItemsNamed(named, items, n, before) ==> |named| == n
    ensures n == 0 ==> (ItemsNamed(named, items, n, before) <==> named == [])
  {
  }

  // ---- Messages ----

  // The message's content is read and named; results make it a tool message.
  ghost predicate MessageRead(read: Message, message: ClientMessage, before: seq<Content>) {
    && message.role in ["user", "assistant"]
    && exists items: seq<Content> ::
         && ContentRead(items, message.content, message.role, false) && ItemsNamed(read.content, items, |items|, before)
         && read.role == if exists item <- items :: item.kind == Answer then Tool else if message.role == "user" then User else Assistant
  }

  lemma MessageReadExactly(read: Message, message: ClientMessage, before: seq<Content>)
    ensures MessageToIR(message, before) == Some(read) <==> MessageRead(read, message, before)
  {
    hide ContentRead;
    hide ContentToIR;
    hide NameItems;
    hide ItemsNamed;
    forall items: seq<Content>
      ensures ContentToIR(message.content, message.role, false) == Some(items) <==> ContentRead(items, message.content, message.role, false)
      ensures NameItems(items, |items|, before) == Some(read.content) <==> ItemsNamed(read.content, items, |items|, before)
    {
      ReadExactly(items, message.content, message.role, false);
      ItemsNamedExactly(read.content, items, |items|, before);
    }
  }

  ghost predicate MessagesRead(read: seq<Message>, system: seq<Message>, messages: seq<ClientMessage>) {
    && |read| == |system| + |messages| && read[..|system|] == system
    && forall m :: 0 <= m < |messages| ==> MessageRead(read[|system| + m], messages[m], Items(read[..|system| + m]))
  }

  // Messages are accepted exactly when each is well formed, no call ID repeats and every
  // result answers an earlier call; what they become is determined field by field.
  lemma {:induction false} MessagesReadExactly(read: seq<Message>, system: seq<Message>, messages: seq<ClientMessage>)
    ensures MessagesToIR(system, messages) == Some(read) <==> MessagesRead(read, system, messages)
  {
    hide MessageToIR;
    hide MessagesRead;
    var n, last := |system| + |messages|, |messages| - 1;
    MessagesLength(system, messages);
    ReadLength(read, system, messages);
    if messages != [] && |read| == n {
      var init := read[..n - 1];
      MessagesReadExactly(init, system, messages[..last]);
      MessageReadExactly(read[n - 1], messages[last], Items(init));
      assert read == init + [read[n - 1]] && messages == messages[..last] + [messages[last]];
      ReadAppend(init, read[n - 1], system, messages[..last], messages[last]);
    }
  }

  lemma {:induction false} MessagesLength(system: seq<Message>, messages: seq<ClientMessage>)
    ensures MessagesToIR(system, messages).Some? ==> |MessagesToIR(system, messages).value| == |system| + |messages|
  {
    hide MessageToIR;
    if messages != [] {
      MessagesLength(system, messages[..|messages| - 1]);
    }
  }

  lemma ReadLength(read: seq<Message>, system: seq<Message>, messages: seq<ClientMessage>)
    ensures MessagesRead(read, system, messages) ==> |read| == |system| + |messages|
    ensures messages == [] ==> (MessagesRead(read, system, messages) <==> read == system)
  {
    assert |read| == |system| ==> read[..|system|] == read;
  }

  lemma ReadAppend(init: seq<Message>, last: Message, system: seq<Message>, messages: seq<ClientMessage>, message: ClientMessage)
    requires |init| == |system| + |messages|
    ensures MessagesRead(init + [last], system, messages + [message]) <==>
            MessagesRead(init, system, messages) && MessageRead(last, message, Items(init))
  {
    hide MessageRead;
    var read, all := init + [last], messages + [message];
    assert init[..|system|] == read[..|system|];
    assert read[..|system| + |messages|] == init;
    forall m | 0 <= m < |messages|
      ensures MessageRead(init[|system| + m], messages[m], Items(init[..|system| + m])) <==>
              MessageRead(read[|system| + m], all[m], Items(read[..|system| + m]))
    {
      assert init[..|system| + m] == read[..|system| + m];
    }
    if MessagesRead(read, system, all) {
      forall m | 0 <= m < |messages|
        ensures MessageRead(init[|system| + m], messages[m], Items(init[..|system| + m]))
      {
        assert MessageRead(read[|system| + m], all[m], Items(read[..|system| + m]));
      }
      assert MessageRead(read[|system| + |messages|], all[|messages|], Items(read[..|system| + |messages|]));
    }
  }

  // ---- The client's request ----

  ghost predicate SystemRead(read: seq<Message>, system: ClientContent) {
    if system == NoContent then read == []
    else
      && |read| == 1 && read[0].role == System && ContentRead(read[0].content, system, "system", false)
      && forall item <- read[0].content :: item.kind == Text
  }

  lemma SystemReadExactly(read: seq<Message>, system: ClientContent)
    ensures SystemToIR(system) == Some(read) <==> SystemRead(read, system)
  {
    hide ContentRead;
    hide ContentToIR;
    if !system.NoContent? {
      if |read| == 1 {
        ReadExactly(read[0].content, system, "system", false);
        assert read == [read[0]];
      }
      if ContentToIR(system, "system", false).Some? {
        SomethingRead(system);
      }
    }
  }

  lemma SomethingRead(system: ClientContent)
    requires ContentToIR(system, "system", false).Some?
    ensures ContentToIR(system, "system", false).value != []
  {
    var items := ContentToIR(system, "system", false).value;
    ReadExactly(items, system, "system", false);
  }

  // "none" needs no tools and then says nothing; the other choices need some.
  predicate ChoiceRead(read: Option<ToolChoice>, choice: Option<WireChoice>, tools: seq<Function>) {
    if choice == None then read == None
    else
      var wire := choice.value;
      || (wire.kind == "none" && !wire.disableParallel && read == if tools == [] then None else Some(ToolChoice("none", "", false)))
      || (wire.kind == "auto" && tools != [] && read == Some(ToolChoice("auto", "", wire.disableParallel)))
      || (wire.kind == "any" && tools != [] && read == Some(ToolChoice("required", "", wire.disableParallel)))
      || (wire.kind == "tool" && wire.name != "" && (exists tool <- tools :: TrimSpace(tool.name) == wire.name)
          && read == Some(ToolChoice("named", wire.name, wire.disableParallel)))
  }

  ghost predicate ToolsRead(read: seq<Function>, tools: seq<Function>) {
    && |read| == |tools|
    && (forall i :: 0 <= i < |tools| ==> !Blank(tools[i].name) && tools[i].inputSchema.IsObject() && read[i] == tools[i].(name := TrimSpace(tools[i].name)))
    && (forall i, j :: 0 <= i < j < |tools| ==> read[i].name != read[j].name)
  }

  lemma ToolsReadExactly(read: seq<Function>, tools: seq<Function>)
    ensures ToolsOk(tools) && read == TrimmedTools(tools) <==> ToolsRead(read, tools)
  {
    forall tool: Function
      ensures TrimSpace(tool.name) == "" <==> Blank(tool.name)
    {
      TrimSpaceEmpties(tool.name);
    }
    if ToolsRead(read, tools) {
      forall tool <- tools
        ensures TrimSpace(tool.name) != "" && tool.inputSchema.IsObject()
      {
        var i :| 0 <= i < |tools| && tools[i] == tool;
      }
      assert forall i, j :: 0 <= i < j < |tools| ==> TrimSpace(tools[i].name) == read[i].name && TrimSpace(tools[j].name) == read[j].name;
    }
  }

  // The wire fields are in range, and the request's parts have been read into the result.
  ghost predicate RequestRead(read: Request, request: ClientRequest, route: Route, requestID: string) {
    && !Blank(request.model) && request.maxTokens > 0 && request.messages != [] && !request.stream && !request.unportable
    && (request.temperature.Some? ==> 0.0 <= request.temperature.value <= 1.0)
    && (request.topP.Some? ==> 0.0 <= request.topP.value <= 1.0)
    && (forall stop <- request.stopSequences :: stop != "")
    && (exists system :: SystemRead(system, request.system) && MessagesRead(read.messages, system, request.messages))
    && ToolsRead(read.tools, request.tools) && ChoiceRead(read.toolChoice, request.toolChoice, request.tools)
    && read == Request("2026-07-12", requestID, route, read.messages, Some(request.maxTokens), request.temperature, request.topP,
                       request.stopSequences, read.tools, read.toolChoice, map[], false)
    && ValidRequest(read)
  }

  // A client's request is accepted exactly when it is well formed and what it has been read
  // into is valid; every field of the result comes from a field of the request.
  lemma RequestReadExactly(read: Request, request: ClientRequest, route: Route, requestID: string)
    ensures RequestToIR(request, route, requestID) == Some(read) <==> RequestRead(read, request, route, requestID)
  {
    hide ValidRequest;
    hide SystemToIR;
    hide SystemRead;
    hide MessagesToIR;
    hide MessagesRead;
    hide ToolsOk;
    hide TrimmedTools;
    hide ToolsRead;
    TrimSpaceEmpties(request.model);
    ToolsReadExactly(read.tools, request.tools);
    ChoiceReadExactly(read.toolChoice, request.toolChoice, request.tools);
    forall system: seq<Message>
      ensures SystemToIR(request.system) == Some(system) <==> SystemRead(system, request.system)
      ensures MessagesToIR(system, request.messages) == Some(read.messages) <==> MessagesRead(read.messages, system, request.messages)
    {
      SystemReadExactly(system, request.system);
      MessagesReadExactly(read.messages, system, request.messages);
    }
  }

  lemma ChoiceReadExactly(read: Option<ToolChoice>, choice: Option<WireChoice>, tools: seq<Function>)
    ensures ChoiceToIR(choice, tools) == Ok(read) <==> ChoiceRead(read, choice, tools)
  {
  }

  // ---- The provider's blocks, for content from any client ----

  predicate ImageSent(source: ImageSource, image: Image) {
    if image.url == NoURL then
      && image.mediaType in ["image/jpeg", "image/png", "image/gif", "image/webp"] && image.data.Base64?
      && source == ImageSource("base64", NoURL, image.mediaType, image.data)
    else image.url.HttpURL? && image.mediaType == "" && image.data == NoData && source == ImageSource("url", image.url, "", NoData)
  }

  // The block says what the content says; a result's object follows its contents as text.
  predicate BlockSent(block: Block, content: Content)
    decreases content, 1
  {
    match content.kind
    case Text => block == Block("text", content.text, None, "", "", Missing, "", [], false)
    case Picture =>
      && content.image.Some? && block.source.Some? && ImageSent(block.source.value, content.image.value)
      && block == Block("image", "", block.source, "", "", Missing, "", [], false)
    case Call =>
      && content.call.Some?
      && block == Block("tool_use", "", None, content.call.value.id, content.call.value.name, content.call.value.arguments, "", [], false)
    case Answer =>
      && content.answer.Some?
      && var answer := content.answer.value; var extra := if answer.result == Missing then 0 else 1;
         && block == Block("tool_result", "", None, "", "", Missing, answer.callID, block.content, answer.isError)
         && |block.content| == |answer.content| + extra
         && (forall i :: 0 <= i < |answer.content| ==> BlockSent(block.content[i], answer.content[i]))
         && (extra == 1 ==> block.content[|answer.content|] == Block("text", answer.result.Raw(), None, "", "", Missing, "", [], false))
    case OtherKind(_) => false
  }

  lemma {:induction false} BlockSentExactly(block: Block, content: Content)
    ensures BlockFor(content) == Some(block) <==> BlockSent(block, content)
    decreases content, 1, 0
  {
    if content.kind == Answer && content.answer.Some? {
      var answer := content.answer.value;
      var n := |answer.content|;
      NestedLength(content, n);
      if n <= |block.content| {
        var nested, more := block.content[..n], ResultBlocks(answer.result);
        NestedSentExactly(nested, content, n);
        assert block.content == nested + block.content[n..];
        assert forall i :: 0 <= i < n ==> nested[i] == block.content[i];
        if BlockSent(block, content) {
          assert forall i :: 0 <= i < n ==> BlockSent(nested[i], answer.content[i]);
          assert block.content[n..] == more;
        }
        if NestedFor(content, n).Some? && block.content == NestedFor(content, n).value + more {
          assert NestedFor(content, n).value == nested && block.content[n..] == more;
          assert answer.result != Missing ==> block.content[n] == more[0];
        }
      }
    }
  }

  lemma {:induction false} NestedLength(content: Content, n: nat)
    requires content.answer.Some? && n <= |content.answer.value.content|
    ensures NestedFor(content, n).Some? ==> |NestedFor(content, n).value| == n
    decreases n
  {
    if n > 0 {
      NestedLength(content, n - 1);
    }
  }

  lemma {:induction false} NestedSentExactly(blocks: seq<Block>, content: Content, n: nat)
    requires content.answer.Some? && n <= |content.answer.value.content| && |blocks| == n
    ensures NestedFor(content, n) == Some(blocks) <==> forall i :: 0 <= i < n ==> BlockSent(blocks[i], content.answer.value.content[i])
    decreases content, 0, n
  {
    if n > 0 {
      var init, last := blocks[..n - 1], blocks[n - 1];
      NestedSentExactly(init, content, n - 1);
      BlockSentExactly(last, content.answer.value.content[n - 1]);
      NestedLength(content, n - 1);
      assert blocks == init + [last];
    }
  }

  ghost predicate ContentsSent(blocks: seq<Block>, contents: seq<Content>) {
    |blocks| == |contents| && forall i :: 0 <= i < |contents| ==> BlockSent(blocks[i], contents[i])
  }

  lemma {:induction false} ContentsSentExactly(blocks: seq<Block>, contents: seq<Content>)
    ensures BlocksFor(contents) == Some(blocks) <==> ContentsSent(blocks, contents)
    decreases |contents|
  {
    hide BlockFor;
    hide BlockSent;
    if contents != [] {
      var n := |contents| - 1;
      if |blocks| == n + 1 {
        ContentsSentExactly(blocks[..n], contents[..n]);
        BlockSentExactly(blocks[n], contents[n]);
        assert blocks == blocks[..n] + [blocks[n]];
        assert forall i :: 0 <= i < n ==> blocks[..n][i] == blocks[i] && contents[..n][i] == contents[i];
      } else if BlocksFor(contents[..n]).Some? {
        ContentsSentExactly(BlocksFor(contents[..n]).value, contents[..n]);
      }
    }
  }

  // ---- The provider's request ----

  // The first `k` messages are the system's.
  ghost predicate SystemPrefix(messages: seq<Message>, k: nat) {
    k <= |messages| && forall i :: 0 <= i < |messages| ==> (messages[i].role == System <==> i < k)
  }

  // The system's contents are the prompt's system blocks; every other message is sent in
  // its place, a tool's as the user's.
  ghost predicate PromptSent(prompt: Prompt, messages: seq<Message>, k: nat)
    requires k <= |messages|
  {
    && ContentsSent(prompt.system, Items(messages[..k])) && |prompt.messages| == |messages| - k
    && forall i :: 0 <= i < |messages| - k ==> MessageSent(prompt.messages[i], messages[k + i])
  }

  ghost predicate MessageSent(sent: WireMessage, message: Message) {
    ContentsSent(sent.content, message.content) && sent.role == if message.role == Assistant then "assistant" else "user"
  }

  lemma ContentsSentApart(blocks: seq<Block>, left: seq<Content>, right: seq<Content>)
    ensures ContentsSent(blocks, left + right) <==>
            |blocks| == |left| + |right| && ContentsSent(blocks[..|left|], left) && ContentsSent(blocks[|left|..], right)
  {
    hide BlockSent;
    if |blocks| == |left| + |right| {
      forall i | 0 <= i < |blocks|
        ensures (left + right)[i] == if i < |left| then left[i] else right[i - |left|]
        ensures blocks[i] == if i < |left| then blocks[..|left|][i] else blocks[|left|..][i - |left|]
      {
      }
      if ContentsSent(blocks, left + right) {
        forall i | 0 <= i < |right|
          ensures BlockSent(blocks[|left|..][i], right[i])
        {
          assert BlockSent(blocks[|left| + i], (left + right)[|left| + i]);
        }
      }
    }
  }

  lemma TextIsText(blocks: seq<Block>, contents: seq<Content>)
    requires ContentsSent(blocks, contents) && forall item <- contents :: item.kind == Text
    ensures forall block <- blocks :: block.kind == "text"
  {
    assert forall i :: 0 <= i < |contents| ==> contents[i] in contents;
  }

  lemma SystemAppend(left: seq<Block>, right: seq<Block>, messages: seq<Message>, last: Message)
    requires |left| == |Items(messages)|
    ensures PromptSent(Prompt(left + right, []), messages + [last], |messages| + 1) <==>
            PromptSent(Prompt(left, []), messages, |messages|) && ContentsSent(right, last.content)
  {
    hide ContentsSent;
    var all := messages + [last];
    assert all[..|messages| + 1] == all && all[..|messages|] == messages && messages[..|messages|] == messages;
    ContentsSentApart(left + right, Items(messages), last.content);
    ContentsSentLength(right, last.content);
    assert (left + right)[..|left|] == left && (left + right)[|left|..] == right;
  }

  lemma MessagesAppend(prompt: Prompt, sent: WireMessage, messages: seq<Message>, last: Message, k: nat)
    requires k <= |messages|
    ensures PromptSent(Prompt(prompt.system, prompt.messages + [sent]), messages + [last], k) <==>
            PromptSent(prompt, messages, k) && MessageSent(sent, last)
  {
    hide ContentsSent;
    hide MessageSent;
    var all, wire, n := messages + [last], prompt.messages + [sent], |messages| - k;
    assert all[..k] == messages[..k];
    if |prompt.messages| == n {
      forall i | 0 <= i < n
        ensures wire[i] == prompt.messages[i] && all[k + i] == messages[k + i]
      {
      }
      assert wire[n] == sent && all[k + n] == last;
      if forall i :: 0 <= i < n + 1 ==> MessageSent(wire[i], all[k + i]) {
        assert MessageSent(wire[n], all[k + n]);
        forall i | 0 <= i < n
          ensures MessageSent(prompt.messages[i], messages[k + i])
        {
          assert MessageSent(wire[i], all[k + i]);
        }
      }
    }
  }

  lemma ContentsSentLength(blocks: seq<Block>, contents: seq<Content>)
    ensures ContentsSent(blocks, contents) ==> |blocks| == |contents|
    ensures contents == [] ==> (ContentsSent(blocks, contents) <==> blocks == [])
  {
  }

  lemma {:induction false} PromptSentExactly(prompt: Prompt, messages: seq<Message>, k: nat)
    requires SystemPrefix(messages, k) && forall message <- messages :: ValidMessage(message)
    ensures PromptFor(messages) == Some(prompt) <==> PromptSent(prompt, messages, k)
    decreases |messages|, 1
  {
    hide ContentsSent;
    hide MessageSent;
    hide BlocksFor;
    hide ValidMessage;
    ContentsSentLength(prompt.system, []);
    if messages != [] {
      var n := |messages| - 1;
      var init, last := messages[..n], messages[n];
      assert last in messages && messages == init + [last];
      assert forall message <- init :: message in messages;
      ValidParts(last);
      if PromptFor(messages) == Some(prompt) {
        PromptIsSent(prompt, init, last, k);
      }
      if PromptSent(prompt, messages, k) {
        SentIsPrompt(prompt, init, last, k);
      }
    }
  }

  lemma {:induction false} PromptIsSent(prompt: Prompt, init: seq<Message>, last: Message, k: nat)
    requires SystemPrefix(init + [last], k) && forall message <- init + [last] :: ValidMessage(message)
    requires PromptFor(init + [last]) == Some(prompt)
    ensures PromptSent(prompt, init + [last], k)
    decreases |init| + 1, 0
  {
    hide ContentsSent;
    hide BlocksFor;
    hide ValidMessage;
    hide PromptSent;
    var messages, n := init + [last], |init|;
    assert messages[..n] == init && messages[n] == last;
    assert forall message <- init :: message in messages;
    var before, blocks := PromptFor(init).value, BlocksFor(last.content).value;
    ContentsSentExactly(blocks, last.content);
    if last.role == System {
      assert SystemPrefix(init, n) && k == n + 1;
      PromptSentExactly(before, init, n);
      SystemsLength(before, init);
      SystemAppend(before.system, blocks, init, last);
    } else {
      assert SystemPrefix(init, k);
      PromptSentExactly(before, init, k);
      MessagesAppend(before, WireMessage(WireRole(last.role), blocks), init, last, k);
    }
  }

  lemma SystemsLength(prompt: Prompt, messages: seq<Message>)
    requires PromptSent(prompt, messages, |messages|)
    ensures |prompt.system| == |Items(messages)| && prompt.messages == []
  {
    assert messages[..|messages|] == messages;
  }

  lemma {:induction false} SentIsPrompt(prompt: Prompt, init: seq<Message>, last: Message, k: nat)
    requires SystemPrefix(init + [last], k) && forall message <- init + [last] :: ValidMessage(message)
    requires PromptSent(prompt, init + [last], k)
    ensures PromptFor(init + [last]) == Some(prompt)
    decreases |init| + 1, 0
  {
    hide ContentsSent;
    hide BlocksFor;
    hide ValidMessage;
    hide PromptSent;
    var messages, n := init + [last], |init|;
    assert messages[..n] == init && messages[n] == last && last in messages;
    assert forall message <- init :: message in messages;
    ValidParts(last);
    if last.role == System {
      assert SystemPrefix(init, n) && k == n + 1;
      SystemsLength(prompt, messages);
      var left, right := prompt.system[..|Items(init)|], prompt.system[|Items(init)|..];
      assert prompt == Prompt(left + right, []);
      SystemAppend(left, right, init, last);
      PromptSentExactly(Prompt(left, []), init, n);
      ContentsSentExactly(right, last.content);
      TextIsText(right, last.content);
    } else {
      assert SystemPrefix(init, k);
      SentLength(prompt, messages, k);
      var before, sent := Prompt(prompt.system, prompt.messages[..n - k]), prompt.messages[n - k];
      assert prompt == Prompt(prompt.system, before.messages + [sent]);
      MessagesAppend(before, sent, init, last, k);
      PromptSentExactly(before, init, k);
      ContentsSentExactly(sent.content, last.content);
    }
  }

  lemma SentLength(prompt: Prompt, messages: seq<Message>, k: nat)
    requires k <= |messages| && PromptSent(prompt, messages, k)
    ensures |prompt.messages| == |messages| - k
  {
  }

  lemma ValidParts(message: Message)
    requires ValidMessage(message)
    ensures !message.role.OtherRole? && (message.role == System ==> forall item <- message.content :: item.kind == Text)
  {
  }

  // The choice by its wire name; "none" says nothing else.
  predicate ChoiceSent(sent: Option<WireChoice>, choice: Option<ToolChoice>) {
    if choice == None then sent == None
    else
      var mode, parallel := choice.value.mode, choice.value.disableParallel;
      || (mode == "auto" && sent == Some(WireChoice("auto", "", parallel)))
      || (mode == "none" && sent == Some(WireChoice("none", "", false)))
      || (mode == "required" && sent == Some(WireChoice("any", "", parallel)))
      || (mode == "named" && sent == Some(WireChoice("tool", choice.value.name, parallel)))
  }

  // The request's own limit, or the adapter's default, within the adapter's cap.
  predicate LimitSent(sent: int, request: Request, default: int, cap: int) {
    && (request.maxOutputTokens.Some? ==> sent == request.maxOutputTokens.value) && (request.maxOutputTokens == None ==> sent == default)
    && sent > 0 && (cap > 0 ==> sent <= cap)
  }

  ghost predicate RequestSent(sent: MessageRequest, request: Request, default: int, cap: int) {
    && ValidRequest(request) && request.metadata == map[] && LimitSent(sent.maxTokens, request, default, cap)
    && (exists k: nat :: SystemPrefix(request.messages, k) && PromptSent(Prompt(sent.system, sent.messages), request.messages, k))
    && sent.model == request.route.upstreamModel && sent.temperature == request.temperature && sent.topP == request.topP
    && sent.stopSequences == request.stop && sent.tools == request.tools && ChoiceSent(sent.toolChoice, request.toolChoice)
  }

  // A valid request from any client is sent exactly when it has no metadata, its limit fits
  // and every content has a block; what is sent says what the request says.
  lemma RequestSentExactly(sent: MessageRequest, request: Request, default: int, cap: int)
    ensures RequestFor(request, default, cap) == Some(sent) <==> RequestSent(sent, request, default, cap)
  {
    hide ValidMessages;
    hide ValidTools;
    hide ValidChoice;
    hide PromptSent;
    hide PromptFor;
    if ValidRequest(request) {
      var prompt := Prompt(sent.system, sent.messages);
      var k := SystemCount(request.messages);
      PromptSentExactly(prompt, request.messages, k);
      forall other: nat | SystemPrefix(request.messages, other)
        ensures other == k
      {
        SamePrefix(request.messages, other, k);
      }
      if PromptSent(prompt, request.messages, k) {
        SentLength(prompt, request.messages, k);
      }
    }
  }

  ghost function SystemCount(messages: seq<Message>): (k: nat)
    requires ValidMessages(messages)
    ensures SystemPrefix(messages, k) && k < |messages| && forall message <- messages :: ValidMessage(message)
  {
    var message :| message in messages && message.role != System;
    var i :| 0 <= i < |messages| && messages[i] == message;
    Count(messages, i)
  }

  // The system messages among the first `n`.
  ghost function Count(messages: seq<Message>, n: nat): (k: nat)
    requires n < |messages| && SystemFirst(messages) && messages[n].role != System
    ensures k <= n && SystemPrefix(messages, k)
  {
    if n == 0 || messages[n - 1].role == System then n else Count(messages, n - 1)
  }

  lemma SamePrefix(messages: seq<Message>, a: nat, b: nat)
    requires SystemPrefix(messages, a) && SystemPrefix(messages, b)
    ensures a == b
  {
    assert a < |messages| ==> messages[a].role != System;
    assert b < |messages| ==> messages[b].role != System;
  }
}
