// The Anthropic wire formats, and the client request's way through the provider-neutral
// request to the provider's.
module Anthropic {
  import opened Options
  import opened Text
  import opened IR

  datatype ImageSource = ImageSource(kind: string, url: URL, mediaType: string, data: Data)

  // A client's content is absent, a string, a list of blocks, or something else.
  datatype ClientContent = NoContent | StringContent(text: string) | Blocks(blocks: seq<ClientBlock>) | OtherContent

  datatype ClientBlock = ClientBlock(
    kind: string, text: string, source: Option<ImageSource>, id: string, name: string, input: Json, toolUseID: string,
    content: ClientContent, isError: bool)

  datatype ClientMessage = ClientMessage(role: string, content: ClientContent)

  datatype WireChoice = WireChoice(kind: string, name: string, disableParallel: bool)

  // `unportable` stands for any of the parameters the gateway recognizes only to refuse.
  datatype ClientRequest = ClientRequest(
    model: string, maxTokens: int, messages: seq<ClientMessage>, system: ClientContent, temperature: Option<real>, topP: Option<real>,
    stopSequences: seq<string>, tools: seq<Function>, toolChoice: Option<WireChoice>, stream: bool, unportable: bool)

  datatype Block = Block(
    kind: string, text: string, source: Option<ImageSource>, id: string, name: string, input: Json, toolUseID: string,
    content: seq<Block>, isError: bool)

  datatype WireMessage = WireMessage(role: string, content: seq<Block>)

  datatype MessageRequest = MessageRequest(
    model: string, maxTokens: int, messages: seq<WireMessage>, system: seq<Block>, temperature: Option<real>, topP: Option<real>,
    stopSequences: seq<string>, tools: seq<Function>, toolChoice: Option<WireChoice>)

  function TextBlock(text: string): Block {
    Block("text", text, None, "", "", Missing, "", [], false)
  }

  function ImageBlock(source: ImageSource): Block {
    Block("image", "", Some(source), "", "", Missing, "", [], false)
  }

  function ToolUseBlock(id: string, name: string, input: Json): Block {
    Block("tool_use", "", None, id, name, input, "", [], false)
  }

  function ToolResultBlock(toolUseID: string, content: seq<Block>, isError: bool): Block {
    Block("tool_result", "", None, "", "", Missing, toolUseID, content, isError)
  }

  // ---- Client content to the provider-neutral contents ----

  function ParseImage(source: Option<ImageSource>): Option<Image> {
    if source.None? then None
    else if source.value.kind == "base64" then
      if source.value.url == NoURL && ImageType(source.value.mediaType) && source.value.data.Base64?
      then Some(Image(NoURL, source.value.mediaType, source.value.data)) else None
    else if source.value.kind == "url" then
      if source.value.mediaType == "" && source.value.data == NoData && source.value.url.HttpURL?
      then Some(Image(source.value.url, "", NoData)) else None
    else None
  }

  function BlockToIR(block: ClientBlock, role: string, nested: bool): Option<Content>
    decreases block, 1, 0
  {
    if block.kind == "text" then
      if block.source.Some? || block.id != "" || block.name != "" || block.input.Present() || block.toolUseID != "" || !block.content.NoContent?
         || block.isError
      then None else Some(TextContent(block.text))
    else if block.kind == "image" then
      if role != "user" || block.text != "" || block.id != "" || block.name != "" || block.input.Present() || block.toolUseID != ""
         || !block.content.NoContent? || block.isError || ParseImage(block.source).None?
      then None else Some(ImageContent(ParseImage(block.source).value))
    else if block.kind == "tool_use" then
      if nested || role != "assistant" || block.text != "" || block.source.Some? || block.toolUseID != "" || !block.content.NoContent?
         || block.isError || block.id == "" || TrimSpace(block.name) == "" || !block.input.IsObject()
      then None else Some(CallContent(ToolCall(block.id, TrimSpace(block.name), block.input, "")))
    else if block.kind == "tool_result" then
      if nested || role != "user" || block.text != "" || block.source.Some? || block.id != "" || block.name != "" || block.input.Present()
         || block.toolUseID == ""
      then None
      else
        var content := ContentToIR(block.content, "user", true);
        if content.None? then None else Some(AnswerContent(ToolResult(block.toolUseID, "", content.value, Missing, block.isError)))
    else None
  }

  function ContentToIR(content: ClientContent, role: string, nested: bool): Option<seq<Content>>
    decreases content, 1, 0
  {
    match content
    case NoContent => None
    case OtherContent => None
    case StringContent(text) => Some([TextContent(text)])
    case Blocks(blocks) => if blocks == [] then None else BlocksToIR(content, |blocks|, role, nested)
  }

  // The first `n` blocks.
  function BlocksToIR(content: ClientContent, n: nat, role: string, nested: bool): Option<seq<Content>>
    requires content.Blocks? && n <= |content.blocks|
    decreases content, 0, n
  {
    if n == 0 then Some([])
    else
      var init, item := BlocksToIR(content, n - 1, role, nested), BlockToIR(content.blocks[n - 1], role, nested);
      if init.None? || item.None? then None else Some(init.value + [item.value])
  }

  // ---- ... and from there to the provider's blocks ----

  function BlockFor(content: Content): Option<Block> {
    match content.kind
    case Text => Some(TextBlock(content.text))
    case Picture =>
      if content.image.None? then None
      else
        var image := content.image.value;
        if image.url != NoURL then
          if image.url.HttpURL? && image.mediaType == "" && image.data == NoData
          then Some(ImageBlock(ImageSource("url", image.url, "", NoData))) else None
        else if ImageType(image.mediaType) && image.data.Base64?
        then Some(ImageBlock(ImageSource("base64", NoURL, image.mediaType, image.data))) else None
    case Call =>
      if content.call.None? then None else Some(ToolUseBlock(content.call.value.id, content.call.value.name, content.call.value.arguments))
    case Answer =>
      if content.answer.None? then None
      else
        var answer := content.answer.value;
        var nested := NestedFor(content, |answer.content|);
        if nested.None? then None
        else Some(ToolResultBlock(answer.callID, nested.value + ResultBlocks(answer.result), answer.isError))
    case OtherKind(_) => None
  }

  function ResultBlocks(result: Json): seq<Block> {
    if result == Missing then [] else [TextBlock(result.Raw())]
  }

  function NestedFor(content: Content, n: nat): Option<seq<Block>>
    requires content.answer.Some? && n <= |content.answer.value.content|
    decreases content, 0, n
  {
    if n == 0 then Some([])
    else
      var init, block := NestedFor(content, n - 1), BlockFor(content.answer.value.content[n - 1]);
      if init.None? || block.None? then None else Some(init.value + [block.value])
  }

  function BlocksFor(contents: seq<Content>): Option<seq<Block>> {
    if contents == [] then Some([])
    else
      var init, block := BlocksFor(contents[..|contents| - 1]), BlockFor(contents[|contents| - 1]);
      if init.None? || block.None? then None else Some(init.value + [block.value])
  }

  // ---- The named normal form ----

  // The client's content as the provider's blocks: a string is one text block, and a tool
  // name is trimmed.
  function NormalBlock(block: ClientBlock): Block
    decreases block, 1, 0
  {
    if block.kind == "text" then TextBlock(block.text)
    else if block.kind == "image" && block.source.Some? then ImageBlock(block.source.value)
    else if block.kind == "tool_use" then ToolUseBlock(block.id, TrimSpace(block.name), block.input)
    else ToolResultBlock(block.toolUseID, NormalContent(block.content), block.isError)
  }

  function NormalContent(content: ClientContent): seq<Block>
    decreases content, 1, 0
  {
    match content
    case StringContent(text) => [TextBlock(text)]
    case Blocks(blocks) => NormalBlocks(content, |blocks|)
    case _ => []
  }

  function NormalBlocks(content: ClientContent, n: nat): seq<Block>
    requires content.Blocks? && n <= |content.blocks|
    decreases content, 0, n
  {
    if n == 0 then [] else NormalBlocks(content, n - 1) + [NormalBlock(content.blocks[n - 1])]
  }

  // ---- Content keeps its meaning ----

  lemma {:induction false} BlockKept(block: ClientBlock, role: string, nested: bool)
    requires BlockToIR(block, role, nested).Some?
    ensures BlockFor(BlockToIR(block, role, nested).value) == Some(NormalBlock(block))
    decreases block, 1, 0
  {
    if block.kind == "tool_result" {
      ContentKept(block.content, "user", true);
      var item := BlockToIR(block, role, nested).value;
      var contents := item.answer.value.content;
      NestedIsBlocks(item, |contents|);
      assert contents[..|contents|] == contents;
      assert NormalContent(block.content) + [] == NormalContent(block.content);
    }
  }

  lemma {:induction false} NestedIsBlocks(content: Content, n: nat)
    requires content.answer.Some? && n <= |content.answer.value.content|
    ensures NestedFor(content, n) == BlocksFor(content.answer.value.content[..n])
  {
    if n > 0 {
      NestedIsBlocks(content, n - 1);
      assert content.answer.value.content[..n][..n - 1] == content.answer.value.content[..n - 1];
    }
  }

  // Any client content that parses comes out as its normal form, nested results included.
  lemma {:induction false} ContentKept(content: ClientContent, role: string, nested: bool)
    requires ContentToIR(content, role, nested).Some?
    ensures BlocksFor(ContentToIR(content, role, nested).value) == Some(NormalContent(content))
    decreases content, 1, 0
  {
    match content
    case StringContent(text) =>
      var one := [TextContent(text)];
      assert one[..|one| - 1] == [] && BlocksFor([]) == Some([]);
      assert [] + [TextBlock(text)] == [TextBlock(text)];
    case Blocks(blocks) =>
      BlocksKept(content, |blocks|, role, nested);
    case NoContent =>
    case OtherContent =>
  }

  lemma {:induction false} BlocksKept(content: ClientContent, n: nat, role: string, nested: bool)
    requires content.Blocks? && n <= |content.blocks| && BlocksToIR(content, n, role, nested).Some?
    ensures BlocksFor(BlocksToIR(content, n, role, nested).value) == Some(NormalBlocks(content, n))
    decreases content, 0, n
  {
    if n > 0 {
      BlocksKept(content, n - 1, role, nested);
      BlockKept(content.blocks[n - 1], role, nested);
      var init, item := BlocksToIR(content, n - 1, role, nested).value, BlockToIR(content.blocks[n - 1], role, nested).value;
      assert (init + [item])[..|init|] == init;
    }
  }

  // ---- Names written back into results ----

  // Calls must be new, results must answer an earlier call and take its name.
  ghost function NameItem(item: Content, before: seq<Content>): Option<Content> {
    if item.kind == Call && item.call.Some? then if HasCall(before, item.call.value.id) then None else Some(item)
    else if item.kind == Answer && item.answer.Some? then
      if !HasCall(before, item.answer.value.callID) then None
      else Some(item.(answer := Some(item.answer.value.(name := CallName(before, item.answer.value.callID)))))
    else Some(item)
  }

  ghost function NameItems(items: seq<Content>, n: nat, before: seq<Content>): (named: Option<seq<Content>>)
    requires n <= |items|
    ensures named.Some? ==> |named.value| == n
  {
    if n == 0 then Some([])
    else
      var init := NameItems(items, n - 1, before);
      if init.None? then None
      else
        var item := NameItem(items[n - 1], before + init.value);
        if item.None? then None else Some(init.value + [item.value])
  }

  lemma {:induction false} NamesKeepBlocks(items: seq<Content>, n: nat, before: seq<Content>)
    requires n <= |items| && NameItems(items, n, before).Some?
    ensures BlocksFor(NameItems(items, n, before).value) == BlocksFor(items[..n])
  {
    if n > 0 {
      NamesKeepBlocks(items, n - 1, before);
      var init := NameItems(items, n - 1, before).value;
      var item := NameItem(items[n - 1], before + init).value;
      assert (init + [item])[..n - 1] == init && items[..n][..n - 1] == items[..n - 1];
      NameKeepsBlock(items[n - 1], before + init);
    }
  }

  lemma NameKeepsBlock(item: Content, before: seq<Content>)
    requires NameItem(item, before).Some?
    ensures BlockFor(NameItem(item, before).value) == BlockFor(item)
  {
    if item.kind == Answer && item.answer.Some? {
      var named := NameItem(item, before).value;
      NestedIsBlocks(item, |item.answer.value.content|);
      NestedIsBlocks(named, |item.answer.value.content|);
    }
  }

  predicate HasAnswers(items: seq<Content>) {
    exists item <- items :: item.kind == Answer
  }

  function RoleFor(role: string, items: seq<Content>): Role {
    if HasAnswers(items) then Tool else if role == "user" then User else Assistant
  }

  ghost function MessageToIR(message: ClientMessage, before: seq<Content>): Option<Message> {
    if message.role != "user" && message.role != "assistant" then None
    else
      var items := ContentToIR(message.content, message.role, false);
      if items.None? then None
      else
        var named := NameItems(items.value, |items.value|, before);
        if named.None? then None else Some(Message(RoleFor(message.role, items.value), named.value))
  }

  ghost function MessagesToIR(system: seq<Message>, messages: seq<ClientMessage>): Option<seq<Message>> {
    if messages == [] then Some(system)
    else
      var init := MessagesToIR(system, messages[..|messages| - 1]);
      if init.None? then None
      else
        var message := MessageToIR(messages[|messages| - 1], Items(init.value));
        if message.None? then None else Some(init.value + [message.value])
  }

  // The system prompt: text only.
  function SystemToIR(system: ClientContent): Option<seq<Message>> {
    if system.NoContent? then Some([])
    else
      var items := ContentToIR(system, "system", false);
      if items.None? || exists item <- items.value :: item.kind != Text then None
      else if items.value == [] then Some([])
      else Some([Message(System, items.value)])
  }

  // ---- Messages for the provider ----

  datatype Prompt = Prompt(system: seq<Block>, messages: seq<WireMessage>)

  function WireRole(role: Role): string {
    if role == Assistant then "assistant" else "user"
  }

  function PromptFor(messages: seq<Message>): Option<Prompt> {
    if messages == [] then Some(Prompt([], []))
    else
      var last := messages[|messages| - 1];
      var init, blocks := PromptFor(messages[..|messages| - 1]), BlocksFor(last.content);
      if init.None? || blocks.None? || last.role.OtherRole? then None
      else if last.role == System then
        if exists block <- blocks.value :: block.kind != "text" then None
        else Some(Prompt(init.value.system + blocks.value, init.value.messages))
      else Some(Prompt(init.value.system, init.value.messages + [WireMessage(WireRole(last.role), blocks.value)]))
  }

  function NormalMessages(messages: seq<ClientMessage>): seq<WireMessage> {
    if messages == [] then []
    else
      var last := messages[|messages| - 1];
      NormalMessages(messages[..|messages| - 1]) + [WireMessage(last.role, NormalContent(last.content))]
  }

  lemma MessageKept(message: ClientMessage, before: seq<Content>)
    requires MessageToIR(message, before).Some?
    ensures var translated := MessageToIR(message, before).value;
            && BlocksFor(translated.content) == Some(NormalContent(message.content))
            && translated.role != System && !translated.role.OtherRole? && WireRole(translated.role) == message.role
  {
    var items := ContentToIR(message.content, message.role, false).value;
    ContentKept(message.content, message.role, false);
    NamesKeepBlocks(items, |items|, before);
    assert items[..|items|] == items;
    if message.role == "assistant" {
      AnswersAreTheUsers(message.content, false);
    }
  }

  // An assistant's blocks hold no results, so its role stays.
  lemma AnswersAreTheUsers(content: ClientContent, nested: bool)
    requires ContentToIR(content, "assistant", nested).Some?
    ensures !HasAnswers(ContentToIR(content, "assistant", nested).value)
  {
    if content.Blocks? {
      NoAnswers(content, |content.blocks|, nested);
    }
  }

  lemma {:induction false} NoAnswers(content: ClientContent, n: nat, nested: bool)
    requires content.Blocks? && n <= |content.blocks| && BlocksToIR(content, n, "assistant", nested).Some?
    ensures !HasAnswers(BlocksToIR(content, n, "assistant", nested).value)
    decreases n
  {
    if n > 0 {
      NoAnswers(content, n - 1, nested);
    }
  }

  // Accepted messages come out with their roles and the normal form of their content.
  lemma {:induction false} MessagesKept(system: seq<Message>, messages: seq<ClientMessage>)
    requires MessagesToIR(system, messages).Some? && PromptFor(system).Some?
    ensures PromptFor(MessagesToIR(system, messages).value) ==
            Some(Prompt(PromptFor(system).value.system, PromptFor(system).value.messages + NormalMessages(messages)))
  {
    if messages == [] {
      assert PromptFor(system).value.messages + [] == PromptFor(system).value.messages;
    } else {
      var last := |messages| - 1;
      MessagesKept(system, messages[..last]);
      var init := MessagesToIR(system, messages[..last]).value;
      MessageKept(messages[last], Items(init));
      var message := MessageToIR(messages[last], Items(init)).value;
      assert (init + [message])[..|init|] == init;
      var before, wire := PromptFor(system).value.messages, WireMessage(messages[last].role, NormalContent(messages[last].content));
      assert before + NormalMessages(messages[..last]) + [wire] == before + (NormalMessages(messages[..last]) + [wire]);
    }
  }

  lemma {:induction false} TextBlocks(contents: seq<Content>)
    requires forall item <- contents :: item.kind == Text
    ensures BlocksFor(contents).Some? && forall block <- BlocksFor(contents).value :: block.kind == "text"
  {
    if contents != [] {
      TextBlocks(contents[..|contents| - 1]);
    }
  }

  lemma SystemKept(system: ClientContent)
    requires SystemToIR(system).Some?
    ensures PromptFor(SystemToIR(system).value) == Some(Prompt(NormalContent(system), []))
  {
    var messages := SystemToIR(system).value;
    if !system.NoContent? {
      var items := ContentToIR(system, "system", false).value;
      ContentKept(system, "system", false);
      TextBlocks(items);
      if items != [] {
        assert messages[..0] == [] && [] + NormalContent(system) == NormalContent(system);
      }
    }
  }
}
