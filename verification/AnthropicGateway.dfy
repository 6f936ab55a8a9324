// The Anthropic request translations as code, proved to compute the functions whose
// composition keeps the request's meaning.
module AnthropicGateway {
  import opened Options
  import opened Text
  import opened IR
  import opened Anthropic
  import opened AnthropicRequest

  // ---- Parsing the client's blocks ----

  method ParseClientBlock(block: ClientBlock, role: string, nested: bool) returns (item: Option<Content>)
    ensures item == BlockToIR(block, role, nested)
    decreases block, 0
  {
    var named := block.id != "" || block.name != "" || block.input.Present();
    var rest := block.toolUseID != "" || !block.content.NoContent? || block.isError;
    if block.kind == "text" {
      return if block.source.Some? || named || rest then None else Some(TextContent(block.text));
    } else if block.kind == "image" {
      if role != "user" || block.text != "" || named || rest {
        return None;
      }
      var image := ParseImage(block.source);
      return if image.None? then None else Some(ImageContent(image.value));
    } else if block.kind == "tool_use" {
      if nested || role != "assistant" || block.text != "" || block.source.Some? || rest {
        return None;
      }
      var name := TrimSpace(block.name);
      if block.id == "" || name == "" || !block.input.IsObject() {
        return None;
      }
      return Some(CallContent(ToolCall(block.id, name, block.input, "")));
    } else if block.kind == "tool_result" {
      if nested || role != "user" || block.text != "" || block.source.Some? || named || block.toolUseID == "" {
        return None;
      }
      var content, _ := ParseClientBlocks(block.content, "user", true);
      return if content.None? then None else Some(AnswerContent(ToolResult(block.toolUseID, "", content.value, Missing, block.isError)));
    }
    return None;
  }

  method ParseClientBlocks(content: ClientContent, role: string, nested: bool) returns (items: Option<seq<Content>>, hasToolResult: bool)
    ensures items == ContentToIR(content, role, nested)
    ensures items.Some? ==> hasToolResult == HasAnswers(items.value)
    decreases content, 1
  {
    match content {
      case NoContent => return None, false;
      case OtherContent => return None, false;
      case StringContent(text) => return Some([TextContent(text)]), false;
      case Blocks(blocks) =>
        if blocks == [] {
          return None, false;
        }
        var result: seq<Content> := [];
        hasToolResult := false;
        for i := 0 to |blocks|
          invariant BlocksToIR(content, i, role, nested) == Some(result)
          invariant hasToolResult == HasAnswers(result)
        {
          var item := ParseClientBlock(blocks[i], role, nested);
          if item.None? {
            BlocksStop(content, i + 1, role, nested);
            return None, false;
          }
          hasToolResult := hasToolResult || item.value.kind == Answer;
          assert forall other :: other in result + [item.value] <==> other in result || other == item.value;
          result := result + [item.value];
        }
        return Some(result), hasToolResult;
    }
  }

  lemma {:induction false} BlocksStop(content: ClientContent, n: nat, role: string, nested: bool)
    requires content.Blocks? && n <= |content.blocks| && BlocksToIR(content, n, role, nested).None?
    ensures BlocksToIR(content, |content.blocks|, role, nested).None?
    decreases |content.blocks| - n
  {
    if n < |content.blocks| {
      BlocksStop(content, n + 1, role, nested);
    }
  }

  // ---- Writing the tool names back ----

  ghost predicate KnowsNames(names: map<string, string>, items: seq<Content>) {
    forall id :: (id in names <==> HasCall(items, id)) && (id in names ==> names[id] == CallName(items, id))
  }

  ghost predicate WellMade(items: seq<Content>) {
    forall item <- items :: (item.kind == Call ==> item.call.Some?) && (item.kind == Answer ==> item.answer.Some?)
  }

  lemma NamesAppend(names: map<string, string>, items: seq<Content>, item: Content)
    requires KnowsNames(names, items) && WellMade([item])
    ensures KnowsNames(if item.kind == Call then names[item.call.value.id := item.call.value.name] else names, items + [item])
  {
    var all, n := items + [item], |items|;
    var after := if item.kind == Call then names[item.call.value.id := item.call.value.name] else names;
    assert item in [item] && all[..n] == items;
    forall id: string
      ensures id in after <==> HasCall(all, id)
      ensures id in after ==> after[id] == CallName(all, id)
    {
      HasCallAppend(items, item, id);
    }
  }

  lemma HasCallAppend(items: seq<Content>, item: Content, id: string)
    ensures HasCall(items + [item], id) <==> HasCall(items, id) || CallsAt([item], 0, id)
    ensures CallsAt(items + [item], |items|, id) <==> CallsAt([item], 0, id)
  {
    var all := items + [item];
    if i: nat :| CallsAt(items, i, id) {
      assert CallsAt(all, i, id);
    }
    if i: nat :| CallsAt(all, i, id) {
      assert i < |items| ==> CallsAt(items, i, id);
    }
    assert CallsAt([item], 0, id) ==> CallsAt(all, |items|, id);
  }

  method NameResults(content: seq<Content>, known: map<string, string>, ghost before: seq<Content>)
    returns (named: Option<seq<Content>>, names: map<string, string>)
    requires KnowsNames(known, before) && WellMade(content)
    ensures named == NameItems(content, |content|, before)
    ensures named.Some? ==> KnowsNames(names, before + named.value)
  {
    hide KnowsNames;
    var items := content;
    names := known;
    assert before + items[..0] == before;
    for i := 0 to |content|
      invariant |items| == |content| && items[i..] == content[i..] && NameItems(content, i, before) == Some(items[..i])
      invariant KnowsNames(names, before + items[..i])
    {
      var item := content[i];
      ghost var sofar := before + items[..i];
      assert items[i] == items[i..][0] == content[i..][0] && item in content;
      KnownName(names, sofar, item);
      var id := "";
      if item.kind == Call {
        id := item.call.value.id;
        if id in names {
          NamesStop(content, i + 1, before);
          return None, names;
        }
      } else if item.kind == Answer {
        id := item.answer.value.callID;
        if id !in names {
          NamesStop(content, i + 1, before);
          return None, names;
        }
        item := item.(answer := Some(item.answer.value.(name := names[id])));
      }
      NamesAppend(names, sofar, item);
      if item.kind == Call {
        names := names[id := item.call.value.name];
      }
      items := items[i := item];
      assert items[..i + 1] == items[..i] + [item];
      assert before + items[..i + 1] == sofar + [item];
    }
    assert items[..|content|] == items;
    return Some(items), names;
  }

  lemma KnownName(names: map<string, string>, items: seq<Content>, item: Content)
    requires KnowsNames(names, items)
    ensures item.kind == Call && item.call.Some? ==> (item.call.value.id in names <==> HasCall(items, item.call.value.id))
    ensures item.kind == Answer && item.answer.Some? ==>
              && (item.answer.value.callID in names <==> HasCall(items, item.answer.value.callID))
              && (item.answer.value.callID in names ==> names[item.answer.value.callID] == CallName(items, item.answer.value.callID))
  {
  }

  lemma {:induction false} NamesStop(items: seq<Content>, n: nat, before: seq<Content>)
    requires n <= |items| && NameItems(items, n, before).None?
    ensures NameItems(items, |items|, before).None?
    decreases |items| - n
  {
    if n < |items| {
      NamesStop(items, n + 1, before);
    }
  }

  lemma {:induction false} ParsedWellMade(content: ClientContent, role: string, nested: bool)
    requires ContentToIR(content, role, nested).Some?
    ensures WellMade(ContentToIR(content, role, nested).value)
  {
    if content.Blocks? {
      BlocksWellMade(content, |content.blocks|, role, nested);
    }
  }

  lemma {:induction false} BlocksWellMade(content: ClientContent, n: nat, role: string, nested: bool)
    requires content.Blocks? && n <= |content.blocks| && BlocksToIR(content, n, role, nested).Some?
    ensures WellMade(BlocksToIR(content, n, role, nested).value)
    decreases n
  {
    if n > 0 {
      BlocksWellMade(content, n - 1, role, nested);
    }
  }

  // ---- The requests ----

  lemma {:induction false} MessagesStop(system: seq<Message>, messages: seq<ClientMessage>, n: nat)
    requires n <= |messages| && MessagesToIR(system, messages[..n]).None?
    ensures MessagesToIR(system, messages).None?
    decreases |messages| - n
  {
    if n < |messages| {
      assert messages[..n + 1][..n] == messages[..n];
      MessagesStop(system, messages, n + 1);
    } else {
      assert messages[..n] == messages;
    }
  }

  lemma SystemNamesNothing(system: ClientContent)
    requires SystemToIR(system).Some?
    ensures KnowsNames(map[], Items(SystemToIR(system).value))
  {
    var messages := SystemToIR(system).value;
    var items := Items(messages);
    assert messages != [] ==> items == Items([]) + messages[0].content by {
      assert messages != [] ==> messages[..0] == [];
    }
    assert forall item <- items :: item.kind == Text;
    NoCalls(items);
  }

  lemma NoCalls(items: seq<Content>)
    requires forall item <- items :: item.kind == Text
    ensures forall id :: !HasCall(items, id)
  {
    forall i: nat, id
      ensures !CallsAt(items, i, id)
    {
      assert i < |items| ==> items[i] in items;
    }
  }

  method TranslateMessage(message: ClientMessage, known: map<string, string>, ghost before: seq<Content>)
    returns (translated: Option<Message>, names: map<string, string>)
    requires KnowsNames(known, before)
    ensures translated == MessageToIR(message, before)
    ensures translated.Some? ==> KnowsNames(names, before + translated.value.content)
  {
    hide KnowsNames;
    names := known;
    if message.role != "user" && message.role != "assistant" {
      return None, names;
    }
    var content, hasToolResult := ParseClientBlocks(message.content, message.role, false);
    if content.None? {
      return None, names;
    }
    ParsedWellMade(message.content, message.role, false);
    var role := if hasToolResult then Tool else if message.role == "user" then User else Assistant;
    var named: Option<seq<Content>>;
    named, names := NameResults(content.value, names, before);
    translated := if named.None? then None else Some(Message(role, named.value));
  }

  method TranslateMessages(system: seq<Message>, messages: seq<ClientMessage>) returns (translated: Option<seq<Message>>)
    requires KnowsNames(map[], Items(system))
    ensures translated == MessagesToIR(system, messages)
  {
    hide KnowsNames;
    hide MessageToIR;
    var result, names: map<string, string> := system, map[];
    for m := 0 to |messages|
      invariant MessagesToIR(system, messages[..m]) == Some(result)
      invariant KnowsNames(names, Items(result))
    {
      assert messages[..m + 1][..m] == messages[..m];
      var message: Option<Message>;
      message, names := TranslateMessage(messages[m], names, Items(result));
      if message.None? {
        MessagesStop(system, messages, m + 1);
        return None;
      }
      assert (result + [message.value])[..|result|] == result;
      result := result + [message.value];
    }
    assert messages[..|messages|] == messages;
    return Some(result);
  }

  method TrimTools(tools: seq<Function>) returns (trimmed: Option<seq<Function>>)
    ensures trimmed.Some? <==> ToolsOk(tools)
    ensures trimmed.Some? ==> trimmed.value == TrimmedTools(tools)
  {
    var result: seq<Function>, names: set<string> := [], {};
    for i := 0 to |tools|
      invariant |result| == i && forall k :: 0 <= k < i ==> result[k] == tools[k].(name := TrimSpace(tools[k].name))
      invariant forall k :: 0 <= k < i ==> TrimSpace(tools[k].name) != "" && tools[k].inputSchema.IsObject()
      invariant forall j, k :: 0 <= j < k < i ==> TrimSpace(tools[j].name) != TrimSpace(tools[k].name)
      invariant forall name :: name in names <==> exists k :: 0 <= k < i && TrimSpace(tools[k].name) == name
    {
      var name := TrimSpace(tools[i].name);
      if name == "" || !tools[i].inputSchema.IsObject() || name in names {
        assert tools[i] in tools;
        return None;
      }
      names := names + {name};
      result := result + [tools[i].(name := name)];
    }
    return Some(result);
  }

  method ToIRRequest(request: ClientRequest, route: Route, requestID: string) returns (translated: Option<Request>)
    ensures translated == RequestToIR(request, route, requestID)
  {
    if !HeaderOk(request) {
      return None;
    }
    var system: seq<Message> := [];
    if !request.system.NoContent? {
      var contents, hasToolResult := ParseClientBlocks(request.system, "system", false);
      if contents.None? || hasToolResult || exists item <- contents.value :: item.kind != Text {
        return None;
      }
      if |contents.value| > 0 {
        system := [Message(System, contents.value)];
      }
    }
    assert SystemToIR(request.system) == Some(system);
    SystemNamesNothing(request.system);
    var messages := TranslateMessages(system, request.messages);
    if messages.None? {
      return None;
    }
    var tools := TrimTools(request.tools);
    var choice := ChoiceToIR(request.toolChoice, request.tools);
    if tools.None? || choice.Err? {
      return None;
    }
    var result := Request(VERSION, requestID, route, messages.value, Some(request.maxTokens), request.temperature, request.topP,
                          request.stopSequences, tools.value, choice.value, map[], false);
    var valid := Validate(result);
    return if valid then Some(result) else None;
  }

  lemma {:induction false} PromptStops(messages: seq<Message>, n: nat)
    requires n <= |messages| && PromptFor(messages[..n]).None?
    ensures PromptFor(messages).None?
    decreases |messages| - n
  {
    if n < |messages| {
      assert messages[..n + 1][..n] == messages[..n];
      PromptStops(messages, n + 1);
    } else {
      assert messages[..n] == messages;
    }
  }

  lemma {:induction false} BlocksForStops(contents: seq<Content>, n: nat)
    requires n <= |contents| && BlocksFor(contents[..n]).None?
    ensures BlocksFor(contents).None?
    decreases |contents| - n
  {
    if n < |contents| {
      assert contents[..n + 1][..n] == contents[..n];
      BlocksForStops(contents, n + 1);
    } else {
      assert contents[..n] == contents;
    }
  }

  method ContentsToBlocks(contents: seq<Content>) returns (blocks: Option<seq<Block>>)
    ensures blocks == BlocksFor(contents)
  {
    var result: seq<Block> := [];
    for i := 0 to |contents|
      invariant BlocksFor(contents[..i]) == Some(result)
    {
      assert contents[..i + 1][..i] == contents[..i];
      var block := BlockFor(contents[i]);
      if block.None? {
        BlocksForStops(contents, i + 1);
        return None;
      }
      result := result + [block.value];
    }
    assert contents[..|contents|] == contents;
    return Some(result);
  }

  method ToMessageRequest(request: Request, default: int, cap: int) returns (translated: Option<MessageRequest>)
    ensures translated == RequestFor(request, default, cap)
  {
    var valid := Validate(request);
    var limit := TokenLimit(request, default);
    if !valid || request.stream || request.metadata != map[] || limit <= 0 || (cap > 0 && limit > cap) {
      return None;
    }
    var system: seq<Block>, wire: seq<WireMessage>, messages := [], [], request.messages;
    for m := 0 to |messages|
      invariant PromptFor(messages[..m]) == Some(Prompt(system, wire))
    {
      assert messages[..m + 1][..m] == messages[..m];
      var message := messages[m];
      var blocks := ContentsToBlocks(message.content);
      if blocks.None? || message.role.OtherRole? || (message.role == System && exists block <- blocks.value :: block.kind != "text") {
        PromptStops(messages, m + 1);
        return None;
      }
      if message.role == System {
        system := system + blocks.value;
      } else {
        wire := wire + [WireMessage(WireRole(message.role), blocks.value)];
      }
    }
    assert messages[..|messages|] == messages;
    var choice := ChoiceFor(request.toolChoice);
    if wire == [] || choice.None? {
      return None;
    }
    return Some(MessageRequest(request.route.upstreamModel, limit, wire, system, request.temperature, request.topP, request.stop,
                               request.tools, choice.value));
  }
}
