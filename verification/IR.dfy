// The provider-neutral request and response, and the validator that guards every
// translation, against a declarative specification.
module IR {
  import opened Options
  import opened Text

  const VERSION := "2026-07-12"

  // A raw JSON value as far as the code looks into it; Output is the object an adapter
  // writes around a textual tool result.
  datatype Json = Missing | Null | Object(text: string) | Output(output: string, isError: bool) | OtherJson(text: string) {
    predicate Present() {
      !Missing? && !Null?
    }

    predicate IsObject() {
      Object? || Output?
    }

    // The value's JSON text, escapes aside.
    function Raw(): string {
      match this
      case Missing => ""
      case Null => "null"
      case Object(text) => text
      case Output(output, isError) => "{\"is_error\":" + (if isError then "true" else "false") + ",\"output\":\"" + output + "\"}"
      case OtherJson(text) => text
    }
  }

  // `credentials` marks a URL with user information.
  datatype URL = NoURL | HttpURL(text: string, credentials: bool) | OtherURL(text: string)

  datatype Data = NoData | Base64(text: string) | NotBase64(text: string)

  datatype Role = System | User | Assistant | Tool | OtherRole(text: string)

  datatype Kind = Text | Picture | Call | Answer | OtherKind(text: string)

  datatype Image = Image(url: URL, mediaType: string, data: Data)

  datatype ToolCall = ToolCall(id: string, name: string, arguments: Json, signature: string)

  datatype ToolResult = ToolResult(callID: string, name: string, content: seq<Content>, result: Json, isError: bool)

  datatype Content = Content(kind: Kind, text: string, image: Option<Image>, call: Option<ToolCall>, answer: Option<ToolResult>)

  datatype Message = Message(role: Role, content: seq<Content>)

  datatype Function = Function(name: string, description: string, inputSchema: Json, strict: Option<bool>)

  datatype ToolChoice = ToolChoice(mode: string, name: string, disableParallel: bool)

  datatype Route = Route(providerID: string, upstreamModel: string)

  datatype Request = Request(
    version: string, id: string, route: Route, messages: seq<Message>, maxOutputTokens: Option<int>, temperature: Option<real>,
    topP: Option<real>, stop: seq<string>, tools: seq<Function>, toolChoice: Option<ToolChoice>, metadata: map<string, Json>, stream: bool)

  function TextContent(text: string): Content {
    Content(Text, text, None, None, None)
  }

  function ImageContent(image: Image): Content {
    Content(Picture, "", Some(image), None, None)
  }

  function CallContent(call: ToolCall): Content {
    Content(Call, "", None, Some(call), None)
  }

  function AnswerContent(answer: ToolResult): Content {
    Content(Answer, "", None, None, Some(answer))
  }

  // ---- Content ----

  predicate ImageType(mediaType: string) {
    mediaType in ["image/jpeg", "image/png", "image/gif", "image/webp"]
  }

  // Exactly one of a credential-free HTTP URL and inline base64 data of an image type.
  ghost predicate ValidImage(image: Image) {
    if image.url != NoURL then image.mediaType == "" && image.data == NoData && image.url.HttpURL? && !image.url.credentials
    else image.mediaType in ["image/jpeg", "image/png", "image/gif", "image/webp"] && image.data.Base64?
  }

  ghost predicate ValidCall(call: ToolCall) {
    call.id != "" && call.name != "" && call.arguments.IsObject()
  }

  ghost predicate ValidContent(content: Content) {
    match content.kind
    case Text => content.image.None? && content.call.None? && content.answer.None?
    case Picture =>
      content.text == "" && content.call.None? && content.answer.None? && content.image.Some? && ValidImage(content.image.value)
    case Call =>
      content.text == "" && content.image.None? && content.answer.None? && content.call.Some? && ValidCall(content.call.value)
    case Answer =>
      && content.text == "" && content.image.None? && content.call.None? && content.answer.Some?
      && content.answer.value.callID != ""
      && (content.answer.value.content != [] || content.answer.value.result != Missing)
      && (content.answer.value.result == Missing || content.answer.value.result.IsObject())
      && forall nested <- content.answer.value.content :: (nested.kind.Text? || nested.kind.Picture?) && ValidContent(nested)
    case OtherKind(_) => false
  }

  ghost predicate Allowed(role: Role, kind: Kind) {
    match role
    case System => kind == Text
    case User => kind == Text || kind == Picture
    case Assistant => kind == Text || kind == Call
    case Tool => kind == Answer
    case OtherRole(_) => false
  }

  // The code: a URL or inline data, never both and never neither.
  method ValidateImage(image: Image) returns (ok: bool)
    ensures ok <==> ValidImage(image)
  {
    var hasURL, hasInlineField := image.url != NoURL, image.mediaType != "" || image.data != NoData;
    if hasURL == hasInlineField {
      return false;
    }
    if hasURL {
      return image.url.HttpURL? && !image.url.credentials;
    }
    return image.mediaType != "" && image.data != NoData && ImageType(image.mediaType) && image.data.Base64?;
  }

  method ValidateContent(content: Content) returns (ok: bool)
    ensures ok <==> ValidContent(content)
    decreases content
  {
    match content.kind {
      case Text => return !(content.image.Some? || content.call.Some? || content.answer.Some?);
      case Picture =>
        if content.text != "" || content.call.Some? || content.answer.Some? || content.image.None? {
          return false;
        }
        ok := ValidateImage(content.image.value);
      case Call =>
        if content.text != "" || content.image.Some? || content.answer.Some? || content.call.None? {
          return false;
        }
        var call := content.call.value;
        return call.id != "" && call.name != "" && call.arguments.IsObject();
      case Answer =>
        if content.text != "" || content.image.Some? || content.call.Some? || content.answer.None? {
          return false;
        }
        var answer := content.answer.value;
        if answer.callID == "" || (answer.content == [] && answer.result == Missing) || (answer.result != Missing && !answer.result.IsObject()) {
          return false;
        }
        for i := 0 to |answer.content|
          invariant forall k :: 0 <= k < i ==> (answer.content[k].kind == Text || answer.content[k].kind == Picture) && ValidContent(answer.content[k])
        {
          var nested := answer.content[i];
          if nested.kind != Text && nested.kind != Picture {
            assert nested in answer.content;
            return false;
          }
          var valid := ValidateContent(nested);
          if !valid {
            assert nested in answer.content;
            return false;
          }
        }
        return true;
      case OtherKind(_) => return false;
    }
  }

  // ---- Tool calls and their results ----

  predicate CallsAt(items: seq<Content>, i: nat, id: string) {
    i < |items| && items[i].kind == Call && items[i].call.Some? && items[i].call.value.id == id
  }

  predicate AnswersAt(items: seq<Content>, i: nat, id: string) {
    i < |items| && items[i].kind == Answer && items[i].answer.Some? && items[i].answer.value.callID == id
  }

  predicate NameFits(call: Content, answer: Content)
    requires call.call.Some? && answer.answer.Some?
  {
    answer.answer.value.name == "" || answer.answer.value.name == call.call.value.name
  }

  // No two calls share an ID.
  ghost predicate UniqueCalls(items: seq<Content>) {
    forall i: nat, j: nat, id :: i < j && CallsAt(items, i, id) ==> !CallsAt(items, j, id)
  }

  // A result names a strictly earlier call, with its name if it gives one.
  ghost predicate Follows(items: seq<Content>, j: nat)
    requires j < |items| && items[j].answer.Some?
  {
    exists i: nat :: i < j && CallsAt(items, i, items[j].answer.value.callID) && NameFits(items[i], items[j])
  }

  ghost predicate AnswersFollowCalls(items: seq<Content>) {
    forall j: nat :: j < |items| && items[j].kind == Answer && items[j].answer.Some? ==> Follows(items, j)
  }

  // No call has two results.
  ghost predicate AnsweredOnce(items: seq<Content>) {
    forall i: nat, j: nat, id :: i < j && AnswersAt(items, i, id) ==> !AnswersAt(items, j, id)
  }

  ghost predicate Linked(items: seq<Content>) {
    UniqueCalls(items) && AnswersFollowCalls(items) && AnsweredOnce(items)
  }

  // ---- Messages ----

  // All contents in order.
  function Items(messages: seq<Message>): seq<Content> {
    if messages == [] then [] else Items(messages[..|messages| - 1]) + messages[|messages| - 1].content
  }

  ghost predicate ValidMessage(message: Message) {
    && !message.role.OtherRole? && message.content != []
    && forall content <- message.content :: ValidContent(content) && Allowed(message.role, content.kind)
  }

  ghost predicate SystemFirst(messages: seq<Message>) {
    forall i, j :: 0 <= i < j < |messages| && messages[j].role == System ==> messages[i].role == System
  }

  ghost predicate ValidMessages(messages: seq<Message>) {
    && (forall message <- messages :: ValidMessage(message))
    && SystemFirst(messages)
    && (exists message <- messages :: message.role != System)
    && Linked(Items(messages))
  }

  // What the loop's maps know about the contents seen so far.
  ghost predicate Knows(items: seq<Content>, calls: map<string, string>, results: set<string>) {
    && (forall id :: id in calls <==> HasCall(items, id))
    && (forall i: nat, id :: CallsAt(items, i, id) ==> id in calls && calls[id] == items[i].call.value.name)
    && (forall id :: id in results <==> HasAnswer(items, id))
  }

  ghost predicate HasCall(items: seq<Content>, id: string) {
    exists i: nat :: CallsAt(items, i, id)
  }

  ghost predicate HasAnswer(items: seq<Content>, id: string) {
    exists i: nat :: AnswersAt(items, i, id)
  }

  lemma HasAppend(items: seq<Content>, item: Content, id: string)
    requires ValidContent(item)
    ensures HasCall(items + [item], id) <==> HasCall(items, id) || (item.kind == Call && item.call.value.id == id)
    ensures HasAnswer(items + [item], id) <==> HasAnswer(items, id) || (item.kind == Answer && item.answer.value.callID == id)
  {
    var all, n := items + [item], |items|;
    if i: nat :| CallsAt(items, i, id) {
      assert CallsAt(all, i, id);
    }
    if i: nat :| AnswersAt(items, i, id) {
      assert AnswersAt(all, i, id);
    }
    if i: nat :| CallsAt(all, i, id) {
      assert i < n ==> CallsAt(items, i, id);
    }
    if i: nat :| AnswersAt(all, i, id) {
      assert i < n ==> AnswersAt(items, i, id);
    }
    assert item.kind == Call && item.call.value.id == id ==> CallsAt(all, n, id);
    assert item.kind == Answer && item.answer.value.callID == id ==> AnswersAt(all, n, id);
  }

  ghost predicate LinksLast(items: seq<Content>, item: Content) {
    && (item.kind == Call && item.call.Some? ==> forall i: nat :: !CallsAt(items, i, item.call.value.id))
    && (item.kind == Answer && item.answer.Some? ==>
          && (exists i: nat :: CallsAt(items, i, item.answer.value.callID) && NameFits(items[i], item))
          && forall i: nat :: !AnswersAt(items, i, item.answer.value.callID))
  }

  // Appending one content keeps the links exactly when it links to what is before it.
  lemma LinkedAppend(items: seq<Content>, item: Content)
    ensures Linked(items + [item]) <==> Linked(items) && LinksLast(items, item)
  {
    var all, n := items + [item], |items|;
    assert forall i: nat :: i < n ==> all[i] == items[i];
    assert forall i: nat, id :: i < n ==> (CallsAt(all, i, id) <==> CallsAt(items, i, id)) && (AnswersAt(all, i, id) <==> AnswersAt(items, i, id));
    if Linked(all) {
      AppendBack(items, item);
    }
    if Linked(items) && LinksLast(items, item) {
      AppendForth(items, item);
    }
  }

  lemma AppendBack(items: seq<Content>, item: Content)
    requires Linked(items + [item])
    ensures Linked(items) && LinksLast(items, item)
  {
    var all, n := items + [item], |items|;
    forall i: nat, j: nat, id | i < j
      ensures CallsAt(items, i, id) ==> !CallsAt(items, j, id)
      ensures AnswersAt(items, i, id) ==> !AnswersAt(items, j, id)
    {
      assert CallsAt(items, i, id) ==> CallsAt(all, i, id);
      assert CallsAt(items, j, id) ==> CallsAt(all, j, id);
      assert AnswersAt(items, i, id) ==> AnswersAt(all, i, id);
      assert AnswersAt(items, j, id) ==> AnswersAt(all, j, id);
    }
    forall j: nat | j < n && items[j].kind == Answer && items[j].answer.Some?
      ensures Follows(items, j)
    {
      assert all[j] == items[j] && Follows(all, j);
      var i: nat :| i < j && CallsAt(all, i, all[j].answer.value.callID) && NameFits(all[i], all[j]);
      assert CallsAt(items, i, items[j].answer.value.callID) && NameFits(items[i], items[j]);
    }
    forall i: nat
      ensures item.kind == Call && item.call.Some? ==> !CallsAt(items, i, item.call.value.id)
      ensures item.kind == Answer && item.answer.Some? ==> !AnswersAt(items, i, item.answer.value.callID)
    {
      if i < n && item.kind == Call && item.call.Some? {
        assert CallsAt(all, n, item.call.value.id);
        assert CallsAt(items, i, item.call.value.id) ==> CallsAt(all, i, item.call.value.id);
      }
      if i < n && item.kind == Answer && item.answer.Some? {
        assert AnswersAt(all, n, item.answer.value.callID);
        assert AnswersAt(items, i, item.answer.value.callID) ==> AnswersAt(all, i, item.answer.value.callID);
      }
    }
    if item.kind == Answer && item.answer.Some? {
      assert all[n] == item && Follows(all, n);
      var i: nat :| i < n && CallsAt(all, i, item.answer.value.callID) && NameFits(all[i], item);
      assert CallsAt(items, i, item.answer.value.callID) && NameFits(items[i], item);
    }
  }

  lemma AppendForth(items: seq<Content>, item: Content)
    requires Linked(items) && LinksLast(items, item)
    ensures Linked(items + [item])
  {
    var all, n := items + [item], |items|;
    forall i: nat, j: nat, id | i < j
      ensures CallsAt(all, i, id) ==> !CallsAt(all, j, id)
      ensures AnswersAt(all, i, id) ==> !AnswersAt(all, j, id)
    {
      assert CallsAt(all, i, id) && i < n ==> CallsAt(items, i, id);
      assert CallsAt(all, j, id) && j < n ==> CallsAt(items, j, id);
      assert AnswersAt(all, i, id) && i < n ==> AnswersAt(items, i, id);
      assert AnswersAt(all, j, id) && j < n ==> AnswersAt(items, j, id);
    }
    forall j: nat | j < |all| && all[j].kind == Answer && all[j].answer.Some?
      ensures Follows(all, j)
    {
      if j < n {
        assert Follows(items, j);
        var i: nat :| i < j && CallsAt(items, i, items[j].answer.value.callID) && NameFits(items[i], items[j]);
        assert CallsAt(all, i, all[j].answer.value.callID) && NameFits(all[i], all[j]);
      } else {
        var i: nat :| CallsAt(items, i, item.answer.value.callID) && NameFits(items[i], item);
        assert CallsAt(all, i, all[j].answer.value.callID) && NameFits(all[i], all[j]);
      }
    }
  }

  lemma KnowsAppend(items: seq<Content>, item: Content, calls: map<string, string>, results: set<string>)
    requires Knows(items, calls, results) && LinksLast(items, item) && ValidContent(item)
    ensures Knows(items + [item],
                  if item.kind == Call then calls[item.call.value.id := item.call.value.name] else calls,
                  if item.kind == Answer then results + {item.answer.value.callID} else results)
  {
    var all, n := items + [item], |items|;
    var after := if item.kind == Call then calls[item.call.value.id := item.call.value.name] else calls;
    forall id: string
      ensures HasCall(all, id) <==> HasCall(items, id) || (item.kind == Call && item.call.value.id == id)
      ensures HasAnswer(all, id) <==> HasAnswer(items, id) || (item.kind == Answer && item.answer.value.callID == id)
    {
      HasAppend(items, item, id);
    }
    forall i: nat, id | CallsAt(all, i, id)
      ensures id in after && after[id] == all[i].call.value.name
    {
      if i < n {
        assert CallsAt(items, i, id);
      }
    }
  }

  // The two maps decide the links of one more content.
  lemma KnowsDecides(items: seq<Content>, item: Content, calls: map<string, string>, results: set<string>)
    requires Knows(items, calls, results) && ValidContent(item)
    ensures LinksLast(items, item) <==>
            && (item.kind == Call ==> item.call.value.id !in calls)
            && (item.kind == Answer ==>
                  && item.answer.value.callID in calls
                  && (item.answer.value.name == "" || item.answer.value.name == calls[item.answer.value.callID])
                  && item.answer.value.callID !in results)
  {
    if item.kind == Answer {
      var id := item.answer.value.callID;
      if id in calls {
        assert HasCall(items, id);
        var i: nat :| CallsAt(items, i, id);
        assert NameFits(items[i], item) <==> item.answer.value.name == "" || item.answer.value.name == calls[id];
      }
    }
  }

  lemma {:induction false} LinkedPrefix(items: seq<Content>, more: seq<Content>)
    requires Linked(items + more)
    ensures Linked(items)
    decreases |more|
  {
    if more == [] {
      assert items + more == items;
    } else {
      var init := more[..|more| - 1];
      assert items + more == (items + init) + [more[|more| - 1]];
      LinkedAppend(items + init, more[|more| - 1]);
      LinkedPrefix(items, init);
    }
  }

  lemma {:induction false} ItemsSplit(messages: seq<Message>, m: nat)
    requires m < |messages|
    ensures exists more :: Items(messages) == Items(messages[..m]) + messages[m].content + more
    decreases |messages|
  {
    var last := |messages| - 1;
    if m == last {
      assert Items(messages) == Items(messages[..m]) + messages[m].content + [];
    } else {
      ItemsSplit(messages[..last], m);
      assert messages[..last][..m] == messages[..m];
      var more :| Items(messages[..last]) == Items(messages[..m]) + messages[m].content + more;
      assert Items(messages) == Items(messages[..m]) + messages[m].content + (more + messages[last].content);
    }
  }

  // A content that breaks a link in some message breaks the whole.
  lemma BrokenLink(messages: seq<Message>, m: nat, c: nat)
    requires m < |messages| && c < |messages[m].content|
    requires !LinksLast(Items(messages[..m]) + messages[m].content[..c], messages[m].content[c])
    ensures !Linked(Items(messages))
  {
    if Linked(Items(messages)) {
      var content := messages[m].content;
      ItemsSplit(messages, m);
      var more :| Items(messages) == Items(messages[..m]) + content + more;
      var before := Items(messages[..m]) + content[..c];
      assert Items(messages) == before + [content[c]] + (content[c + 1..] + more);
      LinkedPrefix(before + [content[c]], content[c + 1..] + more);
      LinkedAppend(before, content[c]);
    }
  }

  // ---- The meaning of the call-name map ----

  // The name of the latest call with the ID, or "".
  function CallName(items: seq<Content>, id: string): string {
    if items == [] then ""
    else
      var n := |items| - 1;
      if CallsAt(items, n, id) then items[n].call.value.name else CallName(items[..n], id)
  }

  lemma {:induction false} CallNamed(items: seq<Content>, i: nat, id: string)
    requires UniqueCalls(items) && CallsAt(items, i, id)
    ensures CallName(items, id) == items[i].call.value.name
  {
    var n := |items| - 1;
    if i < n {
      assert CallsAt(items[..n], i, id);
      assert UniqueCalls(items[..n]) by {
        LinksBefore(items);
      }
      CallNamed(items[..n], i, id);
    }
  }

  lemma LinksBefore(items: seq<Content>)
    requires UniqueCalls(items) && items != []
    ensures UniqueCalls(items[..|items| - 1])
  {
    var init := items[..|items| - 1];
    forall i: nat, j: nat, id | i < j && CallsAt(init, i, id)
      ensures !CallsAt(init, j, id)
    {
      assert CallsAt(items, i, id) && (CallsAt(init, j, id) ==> CallsAt(items, j, id));
    }
  }

  // ---- The loop ----

  // What the loops have established about the first `m` messages.
  ghost predicate SoFar(messages: seq<Message>, m: nat, seenNonSystem: bool)
    requires m <= |messages|
  {
    && (forall i :: 0 <= i < m ==> ValidMessage(messages[i]))
    && SystemFirst(messages[..m])
    && (seenNonSystem <==> exists i :: 0 <= i < m && messages[i].role != System)
  }

  lemma NothingKnown(messages: seq<Message>)
    ensures Linked([]) && Knows([], map[], {}) && SoFar(messages, 0, false)
  {
  }

  lemma SoFarNext(messages: seq<Message>, m: nat, seenNonSystem: bool)
    requires m < |messages| && SoFar(messages, m, seenNonSystem) && ValidMessage(messages[m]) && (messages[m].role == System ==> !seenNonSystem)
    ensures SoFar(messages, m + 1, seenNonSystem || messages[m].role != System)
  {
    hide ValidMessage;
    assert messages[..m + 1] == messages[..m] + [messages[m]];
  }

  lemma Misplaced(messages: seq<Message>, m: nat, seenNonSystem: bool)
    requires m < |messages| && SoFar(messages, m, seenNonSystem)
    requires !ValidMessage(messages[m]) || (messages[m].role == System && seenNonSystem)
    ensures !ValidMessages(messages)
  {
    hide ValidMessage;
    assert messages[m] in messages;
  }

  lemma AllSeen(messages: seq<Message>, seenNonSystem: bool)
    requires SoFar(messages, |messages|, seenNonSystem) && Linked(Items(messages))
    ensures seenNonSystem <==> ValidMessages(messages)
  {
    hide ValidMessage;
    hide Linked;
    assert messages[..|messages|] == messages;
  }

  method ValidateMessages(messages: seq<Message>) returns (ok: bool)
    ensures ok <==> ValidMessages(messages)
  {
    hide Linked;
    hide Knows;
    hide ValidContent;
    hide SoFar;
    hide ValidMessages;
    var seenNonSystem := false;
    var calls: map<string, string>, results: set<string> := map[], {};
    NothingKnown(messages);
    for m := 0 to |messages|
      invariant SoFar(messages, m, seenNonSystem)
      invariant Linked(Items(messages[..m])) && Knows(Items(messages[..m]), calls, results)
    {
      var message := messages[m];
      if message.role.OtherRole? || message.content == [] {
        Misplaced(messages, m, seenNonSystem);
        return false;
      }
      if message.role == System && seenNonSystem {
        Misplaced(messages, m, seenNonSystem);
        return false;
      }
      calls, results, ok := ValidateContents(messages, m, calls, results);
      if !ok {
        return false;
      }
      SoFarNext(messages, m, seenNonSystem);
      seenNonSystem := seenNonSystem || message.role != System;
      assert messages[..m + 1][..m] == messages[..m];
    }
    assert messages[..|messages|] == messages;
    AllSeen(messages, seenNonSystem);
    return seenNonSystem;
  }

  // The inner loop: the contents of one message.
  method ValidateContents(messages: seq<Message>, m: nat, before: map<string, string>, answered: set<string>)
    returns (calls: map<string, string>, results: set<string>, ok: bool)
    requires m < |messages| && !messages[m].role.OtherRole?
    requires Linked(Items(messages[..m])) && Knows(Items(messages[..m]), before, answered)
    ensures !ok ==> !ValidMessages(messages)
    ensures ok ==> forall content <- messages[m].content :: ValidContent(content) && Allowed(messages[m].role, content.kind)
    ensures ok ==> var items := Items(messages[..m]) + messages[m].content; Linked(items) && Knows(items, calls, results)
  {
    var message := messages[m];
    ghost var prior := Items(messages[..m]);
    calls, results := before, answered;
    assert prior + message.content[..0] == prior;
    for c := 0 to |message.content|
      invariant forall i :: 0 <= i < c ==> ValidContent(message.content[i]) && Allowed(message.role, message.content[i].kind)
      invariant Linked(prior + message.content[..c]) && Knows(prior + message.content[..c], calls, results)
    {
      var content := message.content[c];
      assert message in messages && content in message.content;
      var valid := ValidateContent(content);
      var allowed := match message.role
        case System => content.kind == Text
        case User => content.kind == Text || content.kind == Picture
        case Assistant => content.kind == Text || content.kind == Call
        case Tool => content.kind == Answer
        case OtherRole(_) => false;
      if !valid || !allowed {
        return calls, results, false;
      }
      ghost var items := prior + message.content[..c];
      KnowsDecides(items, content, calls, results);
      if content.kind == Call && content.call.value.id in calls {
        BrokenLink(messages, m, c);
        return calls, results, false;
      }
      if content.kind == Answer {
        var id := content.answer.value.callID;
        if id !in calls || (content.answer.value.name != "" && content.answer.value.name != calls[id]) || id in results {
          BrokenLink(messages, m, c);
          return calls, results, false;
        }
      }
      LinkedAppend(items, content);
      KnowsAppend(items, content, calls, results);
      if content.kind == Call {
        calls := calls[content.call.value.id := content.call.value.name];
      }
      if content.kind == Answer {
        results := results + {content.answer.value.callID};
      }
      assert prior + message.content[..c + 1] == items + [content];
    }
    assert message.content[..|message.content|] == message.content;
    return calls, results, true;
  }

  // ---- The whole request ----

  predicate InUnit(value: Option<real>) {
    value.None? || 0.0 <= value.value <= 1.0
  }

  ghost predicate ValidTool(tool: Function) {
    !Blank(tool.name) && tool.inputSchema.IsObject()
  }

  ghost predicate ValidTools(tools: seq<Function>) {
    && (forall tool <- tools :: ValidTool(tool))
    && (forall i, j :: 0 <= i < j < |tools| ==> tools[i].name != tools[j].name)
  }

  ghost predicate ValidChoice(choice: Option<ToolChoice>, tools: seq<Function>) {
    choice.Some? ==>
      && tools != []
      && (choice.value.mode in ["auto", "none", "required"]
          || (choice.value.mode == "named" && choice.value.name != "" && exists tool <- tools :: tool.name == choice.value.name))
  }

  ghost predicate ValidHeader(request: Request) {
    && request.version == "2026-07-12" && request.id != "" && request.route.providerID != "" && request.route.upstreamModel != ""
    && request.messages != [] && (request.maxOutputTokens.Some? ==> request.maxOutputTokens.value > 0)
    && (request.temperature.Some? ==> 0.0 <= request.temperature.value <= 1.0) && (request.topP.Some? ==> 0.0 <= request.topP.value <= 1.0)
    && !request.stream && "" !in request.stop
  }

  ghost predicate ValidRequest(request: Request) {
    && ValidHeader(request) && ValidMessages(request.messages)
    && ValidTools(request.tools) && ValidChoice(request.toolChoice, request.tools)
  }

  method Validate(request: Request) returns (ok: bool)
    ensures ok <==> ValidRequest(request)
  {
    if request.version != VERSION || request.id == "" || request.route.providerID == "" || request.route.upstreamModel == "" || request.messages == [] {
      return false;
    }
    if (request.maxOutputTokens.Some? && request.maxOutputTokens.value <= 0) || !InUnit(request.temperature) || !InUnit(request.topP) || request.stream {
      return false;
    }
    if exists stop <- request.stop :: stop == "" {
      return false;
    }
    var messages := ValidateMessages(request.messages);
    if !messages {
      return false;
    }
    var names: set<string>, tools := {}, request.tools;
    for i := 0 to |tools|
      invariant names == set tool <- tools[..i] :: tool.name
      invariant ValidTools(tools[..i])
    {
      assert tools[i] in tools;
      TrimSpaceEmpties(tools[i].name);
      if TrimSpace(tools[i].name) == "" || !tools[i].inputSchema.IsObject() {
        return false;
      }
      if tools[i].name in names {
        assert exists j :: 0 <= j < i && tools[j].name == tools[i].name;
        return false;
      }
      names := names + {tools[i].name};
      assert tools[..i + 1] == tools[..i] + [tools[i]];
    }
    assert tools[..|tools|] == tools;
    if request.toolChoice.Some? {
      var choice := request.toolChoice.value;
      if tools == [] {
        return false;
      }
      if choice.mode in ["auto", "none", "required"] {
        return true;
      }
      return choice.mode == "named" && choice.name != "" && choice.name in names;
    }
    return true;
  }

  // ---- Responses ----

  const INT64_MIN := -0x8000_0000_0000_0000
  const INT64_MAX := 0x7FFF_FFFF_FFFF_FFFF

  // Go's int on every platform the gateway ships for.
  type Int = n: int | INT64_MIN <= n <= INT64_MAX

  function Wrap(n: int): Int {
    (n - INT64_MIN) % 0x1_0000_0000_0000_0000 + INT64_MIN
  }

  datatype Finish = Stop | Length | ToolCalls | Filtered | OtherFinish(text: string)

  datatype Usage = Usage(inputTokens: Int, outputTokens: Int, cacheCreationInputTokens: Int, cachedInputTokens: Int)

  datatype Response = Response(
    version: string, id: string, model: string, content: seq<Content>, finishReason: Finish, stopSequence: string, usage: Usage,
    providerResponseID: string)

  ghost predicate ValidResponse(response: Response) {
    && response.version == "2026-07-12" && response.id != "" && response.model != "" && !response.finishReason.OtherFinish?
    && (forall content <- response.content :: (content.kind.Text? || content.kind.Picture? || content.kind.Call?) && ValidContent(content))
    && response.usage.inputTokens >= 0 && response.usage.outputTokens >= 0
    && response.usage.cacheCreationInputTokens >= 0 && response.usage.cachedInputTokens >= 0
  }

  method ValidateResponse(response: Response) returns (ok: bool)
    ensures ok <==> ValidResponse(response)
  {
    if response.version != VERSION || response.id == "" || response.model == "" || response.finishReason.OtherFinish? {
      return false;
    }
    var contents := response.content;
    for i := 0 to |contents|
      invariant forall k :: 0 <= k < i ==> (contents[k].kind.Text? || contents[k].kind.Picture? || contents[k].kind.Call?) && ValidContent(contents[k])
    {
      if contents[i].kind != Text && contents[i].kind != Picture && contents[i].kind != Call {
        assert contents[i] in contents;
        return false;
      }
      var valid := ValidateContent(contents[i]);
      if !valid {
        assert contents[i] in contents;
        return false;
      }
    }
    var usage := response.usage;
    return !(usage.inputTokens < 0 || usage.outputTokens < 0 || usage.cacheCreationInputTokens < 0 || usage.cachedInputTokens < 0);
  }
}
