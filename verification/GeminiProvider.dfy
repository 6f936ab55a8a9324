// Translation of the provider-neutral messages into Gemini contents: neighbouring turns
// of one role are joined, and every function response is given its call's name.
module GeminiProvider {
  import opened Options
  import opened IR
  import opened Gemini

  const SKIP_VALIDATOR := "skip_thought_signature_validator"

  function TextPart(text: string): Part {
    Part(Some(text), None, None, None, None, "", Missing, Missing, Missing, false)
  }

  function BlobPart(blob: Blob): Part {
    Part(None, Some(blob), None, None, None, "", Missing, Missing, Missing, false)
  }

  function CallPart(call: FunctionCall, signature: string): Part {
    Part(None, None, None, Some(call), None, signature, Missing, Missing, Missing, false)
  }

  function ResponsePart(response: FunctionResponse): Part {
    Part(None, None, None, None, Some(response), "", Missing, Missing, Missing, false)
  }

  // Lower case, for the letters whose lower case is ASCII: the Latin capitals, the dotted
  // capital I and the Kelvin sign.
  function LowerChar(c: char): char {
    if 'A' <= c <= 'Z' then (c as int + 32) as char else if c == '\U{130}' then 'i' else if c == '\U{212A}' then 'k' else c
  }

  function Lower(s: string): string {
    seq(|s|, i requires 0 <= i < |s| => LowerChar(s[i]))
  }

  predicate HasPrefix(s: string, prefix: string) {
    prefix <= s
  }

  // Gemini 3 demands a signature on every call; a call from elsewhere has none.
  predicate DemandsSignature(upstream: string) {
    var model := Lower(upstream);
    HasPrefix(if HasPrefix(model, "models/") then model[|"models/"|..] else model, "gemini-3")
  }

  function JoinedText(contents: seq<Content>): Option<string> {
    if contents == [] then Some("")
    else
      var init, last := JoinedText(contents[..|contents| - 1]), contents[|contents| - 1];
      if init.None? || last.kind != Text then None else Some(init.value + last.text)
  }

  function ResponseFor(answer: ToolResult): Option<Json> {
    if answer.result.Present() then if answer.result.IsObject() then Some(answer.result) else None
    else
      var text := JoinedText(answer.content);
      if text.None? then None else Some(Output(text.value, answer.isError))
  }

  function ContentToPart(content: Content, before: seq<Content>, upstream: string): Option<Part> {
    match content.kind
    case Text => Some(TextPart(content.text))
    case Picture =>
      if content.image.None? || content.image.value.url != NoURL || !ImageType(content.image.value.mediaType) || !content.image.value.data.Base64?
      then None
      else Some(BlobPart(Blob(content.image.value.mediaType, content.image.value.data)))
    case Call =>
      if content.call.None? || !content.call.value.arguments.IsObject() then None
      else
        var call := content.call.value;
        Some(CallPart(FunctionCall(call.id, call.name, call.arguments),
                      if call.signature == "" && DemandsSignature(upstream) then SKIP_VALIDATOR else call.signature))
    case Answer =>
      if content.answer.None? then None
      else
        var answer := content.answer.value;
        var name := if answer.name == "" then CallName(before, answer.callID) else answer.name;
        var response := ResponseFor(answer);
        if name == "" || response.None? then None
        else Some(ResponsePart(FunctionResponse(answer.callID, name, response.value, false, "")))
    case OtherKind(_) => None
  }

  function PartsFor(contents: seq<Content>, n: nat, before: seq<Content>, upstream: string): Option<seq<Part>>
    requires n <= |contents|
  {
    if n == 0 then Some([])
    else
      var init := PartsFor(contents, n - 1, before, upstream);
      if init.None? then None
      else
        var part := ContentToPart(contents[n - 1], before + contents[..n - 1], upstream);
        if part.None? then None else Some(init.value + [part.value])
  }

  // Each message with its parts.
  function Rendered(messages: seq<Message>, upstream: string): Option<seq<(Role, seq<Part>)>> {
    if messages == [] then Some([])
    else
      var init, last := messages[..|messages| - 1], messages[|messages| - 1];
      var rest := Rendered(init, upstream);
      if rest.None? || last.role.OtherRole? then None
      else
        var parts := PartsFor(last.content, |last.content|, Items(init), upstream);
        if parts.None? then None else Some(rest.value + [(last.role, parts.value)])
  }

  // ---- The normal form ----

  function WithRole(role: string, parts: seq<Part>): seq<(string, Part)> {
    seq(|parts|, i requires 0 <= i < |parts| => (role, parts[i]))
  }

  function Flatten(turns: seq<Turn>): seq<(string, Part)> {
    if turns == [] then []
    else Flatten(turns[..|turns| - 1]) + WithRole(turns[|turns| - 1].role, turns[|turns| - 1].parts)
  }

  // The turns' parts in order, with their roles; tool messages are the user's.
  function Conversation(rendered: seq<(Role, seq<Part>)>): seq<(string, Part)> {
    if rendered == [] then []
    else
      var last := rendered[|rendered| - 1];
      Conversation(rendered[..|rendered| - 1]) + if last.0 == System then [] else WithRole(if last.0 == Assistant then "model" else "user", last.1)
  }

  function SystemParts(rendered: seq<(Role, seq<Part>)>): seq<Part> {
    if rendered == [] then []
    else
      var last := rendered[|rendered| - 1];
      SystemParts(rendered[..|rendered| - 1]) + if last.0 == System then last.1 else []
  }

  ghost predicate Alternating(turns: seq<Turn>) {
    forall i :: 0 <= i < |turns| - 1 ==> turns[i].role != turns[i + 1].role
  }

  // ---- The code ----

  ghost predicate Names(names: map<string, string>, items: seq<Content>) {
    forall id :: CallName(items, id) == if id in names then names[id] else ""
  }

  method TranslateContent(content: Content, names: map<string, string>, upstream: string, ghost before: seq<Content>)
    returns (part: Option<Part>, after: map<string, string>)
    requires Names(names, before)
    ensures part == ContentToPart(content, before, upstream)
    ensures part.Some? ==> Names(after, before + [content])
  {
    after := names;
    assert (before + [content])[..|before|] == before;
    match content.kind {
      case Text => part := Some(TextPart(content.text));
      case Picture =>
        if content.image.None? || content.image.value.url != NoURL {
          return None, after;
        }
        var image := content.image.value;
        part := if ImageType(image.mediaType) && image.data.Base64? then Some(BlobPart(Blob(image.mediaType, image.data))) else None;
      case Call =>
        if content.call.None? || !content.call.value.arguments.IsObject() {
          return None, after;
        }
        var call := content.call.value;
        after := names[call.id := call.name];
        var signature := if call.signature == "" && DemandsSignature(upstream) then SKIP_VALIDATOR else call.signature;
        part := Some(CallPart(FunctionCall(call.id, call.name, call.arguments), signature));
      case Answer =>
        if content.answer.None? {
          return None, after;
        }
        var answer := content.answer.value;
        var name := answer.name;
        if name == "" && answer.callID in names {
          name := names[answer.callID];
        }
        if name == "" {
          return None, after;
        }
        var response := answer.result;
        if !response.Present() {
          var output := "";
          for i := 0 to |answer.content|
            invariant JoinedText(answer.content[..i]) == Some(output)
          {
            assert answer.content[..i + 1][..i] == answer.content[..i];
            if answer.content[i].kind != Text {
              JoinedStays(answer.content, i + 1);
              return None, after;
            }
            output := output + answer.content[i].text;
          }
          assert answer.content[..|answer.content|] == answer.content;
          response := Output(output, answer.isError);
        }
        part := if response.IsObject() then Some(ResponsePart(FunctionResponse(answer.callID, name, response, false, ""))) else None;
      case OtherKind(_) => part := None;
    }
  }

  lemma {:induction false} JoinedStays(contents: seq<Content>, n: nat)
    requires n <= |contents| && JoinedText(contents[..n]).None?
    ensures JoinedText(contents).None?
    decreases |contents| - n
  {
    if n < |contents| {
      assert contents[..n + 1][..n] == contents[..n];
      JoinedStays(contents, n + 1);
    } else {
      assert contents[..n] == contents;
    }
  }

  lemma {:induction false} PartsStop(contents: seq<Content>, n: nat, before: seq<Content>, upstream: string)
    requires n <= |contents| && PartsFor(contents, n, before, upstream).None?
    ensures PartsFor(contents, |contents|, before, upstream).None?
    decreases |contents| - n
  {
    if n < |contents| {
      PartsStop(contents, n + 1, before, upstream);
    }
  }

  lemma {:induction false} RenderedStops(messages: seq<Message>, n: nat, upstream: string)
    requires n <= |messages| && Rendered(messages[..n], upstream).None?
    ensures Rendered(messages, upstream).None?
    decreases |messages| - n
  {
    if n < |messages| {
      assert messages[..n + 1][..n] == messages[..n];
      RenderedStops(messages, n + 1, upstream);
    } else {
      assert messages[..n] == messages;
    }
  }

  method TranslateContents(contents: seq<Content>, names: map<string, string>, upstream: string, ghost before: seq<Content>)
    returns (parts: Option<seq<Part>>, after: map<string, string>)
    requires Names(names, before)
    ensures parts == PartsFor(contents, |contents|, before, upstream)
    ensures parts.Some? ==> Names(after, before + contents)
  {
    hide ContentToPart;
    hide Names;
    var done: seq<Part> := [];
    after := names;
    assert before + contents[..0] == before;
    for i := 0 to |contents|
      invariant PartsFor(contents, i, before, upstream) == Some(done)
      invariant Names(after, before + contents[..i])
    {
      var part: Option<Part>;
      part, after := TranslateContent(contents[i], after, upstream, before + contents[..i]);
      if part.None? {
        PartsStop(contents, i + 1, before, upstream);
        return None, after;
      }
      assert before + contents[..i] + [contents[i]] == before + contents[..i + 1];
      done := done + [part.value];
    }
    assert contents[..|contents|] == contents;
    return Some(done), after;
  }

  // Joins the parts to the last turn if it has their role.
  method AppendContent(contents: seq<Turn>, role: string, parts: seq<Part>) returns (after: seq<Turn>)
    requires Alternating(contents)
    ensures Alternating(after) && |after| > 0 && Flatten(after) == Flatten(contents) + WithRole(role, parts)
  {
    var last := |contents| - 1;
    if |contents| > 0 && contents[last].role == role {
      after := contents[last := Turn(role, contents[last].parts + parts)];
      assert after[..last] == contents[..last];
      assert WithRole(role, contents[last].parts + parts) == WithRole(role, contents[last].parts) + WithRole(role, parts);
      assert Flatten(after) == Flatten(contents[..last]) + WithRole(role, contents[last].parts + parts);
      assert Flatten(contents) == Flatten(contents[..last]) + WithRole(role, contents[last].parts);
    } else {
      after := contents + [Turn(role, parts)];
      assert after[..|contents|] == contents;
    }
  }

  datatype Translated = Translated(instruction: Option<seq<Part>>, contents: seq<Turn>)

  // What a successful translation is, in terms of the messages' own parts.
  ghost predicate Faithful(translated: Translated, messages: seq<Message>, rendered: seq<(Role, seq<Part>)>) {
    && Alternating(translated.contents)
    && Flatten(translated.contents) == Conversation(rendered)
    && (translated.instruction.Some? <==> exists message <- messages :: message.role == System)
    && (translated.instruction.Some? ==> translated.instruction.value == SystemParts(rendered))
    && (translated.instruction.None? ==> SystemParts(rendered) == [])
    && (translated.contents == [] <==> forall message <- messages :: message.role == System)
  }

  // Every turn of the result has another role than the one before it; read part by part it
  // is the messages' own parts, the system's apart, in their order.
  method ToContents(messages: seq<Message>, upstream: string) returns (translated: Option<Translated>)
    ensures translated.Some? <==> Rendered(messages, upstream).Some? && exists message <- messages :: message.role != System
    ensures translated.Some? ==> Faithful(translated.value, messages, Rendered(messages, upstream).value)
  {
    hide PartsFor;
    hide Names;
    hide Faithful;
    var result := Translated(None, []);
    var names: map<string, string> := map[];
    ghost var rendered: seq<(Role, seq<Part>)> := [];
    NoNames();
    for m := 0 to |messages|
      invariant Rendered(messages[..m], upstream) == Some(rendered)
      invariant Names(names, Items(messages[..m]))
      invariant Faithful(result, messages[..m], rendered)
    {
      var message := messages[m];
      ghost var prefix := messages[..m + 1];
      assert prefix == messages[..m] + [message] && prefix[..m] == messages[..m];
      var parts: Option<seq<Part>>;
      parts, names := TranslateContents(message.content, names, upstream, Items(messages[..m]));
      if parts.None? || message.role.OtherRole? {
        RenderedStops(messages, m + 1, upstream);
        return None;
      }
      ghost var next := rendered + [(message.role, parts.value)];
      assert next[..|rendered|] == rendered;
      ghost var was := result;
      FaithfulParts(result, messages[..m], rendered);
      if message.role == System {
        result := result.(instruction := Some(if result.instruction.None? then parts.value else result.instruction.value + parts.value));
        assert [] + parts.value == parts.value;
      } else {
        var contents := AppendContent(result.contents, if message.role == Assistant then "model" else "user", parts.value);
        result := result.(contents := contents);
      }
      StillFaithful(was, result, messages[..m], rendered, message, parts.value);
      rendered := next;
    }
    assert messages[..|messages|] == messages;
    FaithfulParts(result, messages, rendered);
    return if result.contents == [] then None else Some(result);
  }

  lemma NoNames()
    ensures Names(map[], []) && Faithful(Translated(None, []), [], [])
  {
  }

  lemma FaithfulParts(translated: Translated, messages: seq<Message>, rendered: seq<(Role, seq<Part>)>)
    requires Faithful(translated, messages, rendered)
    ensures Alternating(translated.contents)
    ensures translated.contents != [] <==> exists message <- messages :: message.role != System
  {
  }

  lemma StillFaithful(was: Translated, result: Translated, messages: seq<Message>, rendered: seq<(Role, seq<Part>)>, message: Message, parts: seq<Part>)
    requires Faithful(was, messages, rendered)
    requires message.role == System ==>
               result == was.(instruction := Some(if was.instruction.None? then parts else was.instruction.value + parts))
    requires message.role != System ==>
               && result.instruction == was.instruction && Alternating(result.contents) && result.contents != []
               && Flatten(result.contents) == Flatten(was.contents) + WithRole(if message.role == Assistant then "model" else "user", parts)
    ensures Faithful(result, messages + [message], rendered + [(message.role, parts)])
  {
    var next := rendered + [(message.role, parts)];
    assert next[..|rendered|] == rendered;
    assert forall other :: other in messages + [message] <==> other in messages || other == message;
    if message.role == System {
      assert Conversation(next) == Conversation(rendered) + [];
      assert [] + parts == parts;
    } else {
      assert SystemParts(next) == SystemParts(rendered) + [];
    }
  }

  // ---- On valid requests ----

  // What Gemini has no form for: images by URL, and images in a result without an object.
  predicate Representable(content: Content) {
    && (content.kind == Picture ==> content.image.Some? && content.image.value.url == NoURL)
    && (content.kind == Answer ==>
          content.answer.Some? && (content.answer.value.result.Present() || forall nested <- content.answer.value.content :: nested.kind == Text))
  }

  lemma {:induction false} JoinedExactly(contents: seq<Content>)
    ensures JoinedText(contents).Some? <==> forall nested <- contents :: nested.kind == Text
  {
    if contents != [] {
      JoinedExactly(contents[..|contents| - 1]);
      assert contents == contents[..|contents| - 1] + [contents[|contents| - 1]];
    }
  }

  lemma AnswerCallName(before: seq<Content>, item: Content)
    requires Linked(before + [item]) && item.kind == Answer && item.answer.Some? && forall other <- before :: ValidContent(other)
    ensures var id := item.answer.value.callID; var name := if item.answer.value.name == "" then CallName(before, id) else item.answer.value.name;
            name != "" && forall i: nat :: CallsAt(before, i, id) ==> name == before[i].call.value.name
  {
    hide ValidContent;
    var id := item.answer.value.callID;
    LinkedAppend(before, item);
    var i: nat :| CallsAt(before, i, id) && NameFits(before[i], item);
    ValidCallNamed(before[i]);
    CallNamed(before, i, id);
    forall j: nat | CallsAt(before, j, id)
      ensures before[j].call.value.name == before[i].call.value.name
    {
      CallNamed(before, j, id);
    }
  }

  lemma ValidCallNamed(item: Content)
    ensures ValidContent(item) && item.kind == Call ==> item.call.value.name != ""
  {
  }

  lemma AnswerRepresentable(item: Content)
    requires ValidContent(item) && item.kind == Answer
    ensures ResponseFor(item.answer.value).Some? <==> Representable(item)
  {
    JoinedExactly(item.answer.value.content);
  }

  // A linked answer is always given its call's name, so it never lacks one.
  lemma AnswerNamed(before: seq<Content>, item: Content, upstream: string)
    requires Linked(before + [item]) && ValidContent(item) && item.kind == Answer && forall other <- before :: ValidContent(other)
    ensures ContentToPart(item, before, upstream).Some? <==> Representable(item)
    ensures ContentToPart(item, before, upstream).Some? ==>
              var part := ContentToPart(item, before, upstream).value;
              && part.functionResponse.Some? && part.functionResponse.value.id == item.answer.value.callID
              && part.functionResponse.value.name != ""
              && forall i: nat :: CallsAt(before, i, item.answer.value.callID) ==> part.functionResponse.value.name == before[i].call.value.name
  {
    assert item.answer.Some?;
    AnswerRepresentable(item);
    AnswerCallName(before, item);
    hide Linked;
    hide ValidContent;
    hide Representable;
    hide ResponseFor;
  }

  lemma ItemTranslates(before: seq<Content>, item: Content, upstream: string)
    requires Linked(before + [item]) && ValidContent(item) && forall other <- before :: ValidContent(other)
    ensures ContentToPart(item, before, upstream).Some? <==> Representable(item)
  {
    if item.kind == Answer {
      AnswerNamed(before, item, upstream);
    }
  }

  lemma {:induction false} PartsTranslate(contents: seq<Content>, n: nat, before: seq<Content>, upstream: string)
    requires n <= |contents| && Linked(before + contents[..n]) && forall item <- before + contents :: ValidContent(item)
    ensures PartsFor(contents, n, before, upstream).Some? <==> forall item <- contents[..n] :: Representable(item)
  {
    hide ContentToPart;
    hide Linked;
    hide ValidContent;
    hide Representable;
    if n > 0 {
      var init, item := contents[..n - 1], contents[n - 1];
      assert contents[..n] == init + [item];
      assert before + contents[..n] == (before + init) + [item];
      LinkedPrefix(before + init, [item]);
      PartsTranslate(contents, n - 1, before, upstream);
      forall other <- before + init
        ensures ValidContent(other)
      {
        assert other in before + contents;
      }
      assert item in before + contents;
      ItemTranslates(before + init, item, upstream);
    }
  }

  // A valid request is refused by the translation exactly when some content has no Gemini
  // form: a result without a function name is never the reason.
  lemma {:induction false} TranslatesExactly(messages: seq<Message>, upstream: string)
    requires Linked(Items(messages)) && forall message <- messages :: ValidMessage(message)
    ensures Rendered(messages, upstream).Some? <==> forall item <- Items(messages) :: Representable(item)
    ensures forall item <- Items(messages) :: ValidContent(item)
  {
    hide Linked;
    hide Representable;
    hide ValidContent;
    if messages != [] {
      var init, last := messages[..|messages| - 1], messages[|messages| - 1];
      assert last in messages && forall message <- init :: message in messages;
      LinkedPrefix(Items(init), last.content);
      TranslatesExactly(init, upstream);
      assert last.content[..|last.content|] == last.content;
      forall item <- Items(init) + last.content
        ensures ValidContent(item)
      {
      }
      PartsTranslate(last.content, |last.content|, Items(init), upstream);
      assert forall item :: item in Items(messages) <==> item in Items(init) || item in last.content;
    }
  }

  lemma ValidTranslates(messages: seq<Message>, upstream: string)
    requires ValidMessages(messages)
    ensures Rendered(messages, upstream).Some? <==> forall item <- Items(messages) :: Representable(item)
  {
    TranslatesExactly(messages, upstream);
  }

  lemma {:induction false} PartsAt(contents: seq<Content>, n: nat, before: seq<Content>, upstream: string, c: nat)
    requires c < n <= |contents| && PartsFor(contents, n, before, upstream).Some?
    ensures |PartsFor(contents, n, before, upstream).value| == n
    ensures ContentToPart(contents[c], before + contents[..c], upstream) == Some(PartsFor(contents, n, before, upstream).value[c])
  {
    hide ContentToPart;
    if n > 1 && c < n - 1 {
      PartsAt(contents, n - 1, before, upstream, c);
    } else if n > 1 {
      PartsAt(contents, n - 1, before, upstream, 0);
    }
  }

  lemma {:induction false} RenderedAt(messages: seq<Message>, upstream: string, m: nat)
    requires m < |messages| && Rendered(messages, upstream).Some?
    ensures |Rendered(messages, upstream).value| == |messages|
    ensures var content := messages[m].content;
            PartsFor(content, |content|, Items(messages[..m]), upstream) == Some(Rendered(messages, upstream).value[m].1)
    ensures Rendered(messages, upstream).value[m].0 == messages[m].role
  {
    hide PartsFor;
    var n := |messages| - 1;
    if m < n {
      RenderedAt(messages[..n], upstream, m);
      assert messages[..n][..m] == messages[..m];
    } else if n > 0 {
      RenderedAt(messages[..n], upstream, 0);
    }
  }

  // In a translated valid request every function response carries the ID it answers and
  // the name of the earlier call with that ID.
  lemma ResponsesCarryNames(messages: seq<Message>, upstream: string, m: nat, c: nat)
    requires ValidMessages(messages) && Rendered(messages, upstream).Some? && m < |messages| && c < |messages[m].content|
    requires messages[m].content[c].kind == Answer
    ensures |Rendered(messages, upstream).value| == |messages| && |Rendered(messages, upstream).value[m].1| == |messages[m].content|
    ensures ValidContent(messages[m].content[c])
    ensures var part, before := Rendered(messages, upstream).value[m].1[c], Items(messages[..m]) + messages[m].content[..c];
            var id := messages[m].content[c].answer.value.callID;
            && part.functionResponse.Some? && part.functionResponse.value.id == id
            && exists i: nat :: CallsAt(before, i, id) && part.functionResponse.value.name == before[i].call.value.name
  {
    hide ContentToPart;
    hide ValidContent;
    var content, item := messages[m].content, messages[m].content[c];
    var before := Items(messages[..m]) + content[..c];
    RenderedAt(messages, upstream, m);
    PartsAt(content, |content|, Items(messages[..m]), upstream, c);
    ItemsSplit(messages, m);
    var more :| Items(messages) == Items(messages[..m]) + content + more;
    assert Items(messages) == before + [item] + (content[c + 1..] + more);
    LinkedPrefix(before + [item], content[c + 1..] + more);
    TranslatesExactly(messages, upstream);
    forall other <- before + [item]
      ensures ValidContent(other)
    {
      assert other in Items(messages);
    }
    AnswerNamed(before, item, upstream);
    LinkedAppend(before, item);
    AnswerHasPayload(item);
    var i: nat :| CallsAt(before, i, item.answer.value.callID) && NameFits(before[i], item);
  }

  lemma AnswerHasPayload(item: Content)
    ensures ValidContent(item) && item.kind == Answer ==> item.answer.Some?
  {
  }

  // ---- What each part says ----

  // The character is the letter, in either case.
  predicate EitherCase(c: char, letter: char) {
    || c == letter
    || ('a' <= letter <= 'z' && c as int + 32 == letter as int)
    || (letter == 'i' && c == '\U{130}') || (letter == 'k' && c == '\U{212A}')
  }

  predicate StartsWith(s: string, prefix: string) {
    |prefix| <= |s| && forall i :: 0 <= i < |prefix| ==> EitherCase(s[i], prefix[i])
  }

  predicate GeminiThree(upstream: string) {
    StartsWith(upstream, "gemini-3") || StartsWith(upstream, "models/gemini-3")
  }

  lemma {:induction false} LowerStarts(s: string, prefix: string)
    requires forall c <- prefix :: 'a' <= c <= 'z' || c in "/-3"
    ensures HasPrefix(Lower(s), prefix) <==> StartsWith(s, prefix)
  {
    if prefix != [] {
      var n := |prefix| - 1;
      LowerStarts(s, prefix[..n]);
      assert prefix == prefix[..n] + [prefix[n]];
      if |s| > n {
        assert prefix[n] in prefix;
        assert LowerChar(s[n]) == prefix[n] <==> EitherCase(s[n], prefix[n]);
      }
      if HasPrefix(Lower(s), prefix) {
        assert prefix[..n] <= Lower(s) && Lower(s)[n] == prefix[n];
      }
    }
  }

  lemma DemandsExactly(upstream: string)
    ensures DemandsSignature(upstream) <==> GeminiThree(upstream)
  {
    var model := Lower(upstream);
    LowerStarts(upstream, "gemini-3");
    LowerStarts(upstream, "models/");
    LowerStarts(upstream, "models/gemini-3");
    assert "models/gemini-3" == "models/" + "gemini-3";
    if HasPrefix(model, "models/") {
      assert model[0] == 'm';
      assert HasPrefix(model[|"models/"|..], "gemini-3") <==> HasPrefix(model, "models/gemini-3");
    }
  }

  // The text reads as the contents' texts, one after the other.
  predicate Joins(contents: seq<Content>, text: string) {
    if contents == [] then text == ""
    else
      var first := contents[0];
      first.kind == Text && first.text <= text && Joins(contents[1..], text[|first.text|..])
  }

  lemma {:induction false} JoinsAppend(contents: seq<Content>, text: string, last: Content)
    requires Joins(contents, text) && last.kind == Text
    ensures Joins(contents + [last], text + last.text)
  {
    var all, whole := contents + [last], text + last.text;
    if contents == [] {
      assert whole == last.text && whole[|last.text|..] == "" && all[1..] == [];
    } else {
      var n := |contents[0].text|;
      JoinsAppend(contents[1..], text[n..], last);
      assert all[1..] == contents[1..] + [last] && whole[n..] == text[n..] + last.text;
    }
  }

  lemma {:induction false} JoinsExactly(contents: seq<Content>)
    requires JoinedText(contents).Some?
    ensures Joins(contents, JoinedText(contents).value)
  {
    if contents != [] {
      var init, last := contents[..|contents| - 1], contents[|contents| - 1];
      JoinsExactly(init);
      JoinsAppend(init, JoinedText(init).value, last);
      assert contents == init + [last];
    }
  }

  // The part says what the content says, and nothing else: its text; its inline image; its
  // call, with the skip marker where Gemini 3 misses a signature; or its result, as the
  // object it has or the text it has.
  ghost predicate Conveys(part: Part, content: Content, upstream: string) {
    match content.kind
    case Text => part == Part(Some(content.text), None, None, None, None, "", Missing, Missing, Missing, false)
    case Picture =>
      && content.image.Some?
      && part == Part(None, Some(Blob(content.image.value.mediaType, content.image.value.data)), None, None, None, "",
                      Missing, Missing, Missing, false)
    case Call =>
      && content.call.Some?
      && var call := content.call.value;
         part == Part(None, None, None, Some(FunctionCall(call.id, call.name, call.arguments)), None,
                      if call.signature != "" then call.signature
                      else if GeminiThree(upstream) then "skip_thought_signature_validator" else "",
                      Missing, Missing, Missing, false)
    case Answer =>
      && content.answer.Some? && part.functionResponse.Some?
      && var answer, response := content.answer.value, part.functionResponse.value;
         && response.id == answer.callID && !response.continues && response.scheduling == ""
         && (answer.name != "" ==> response.name == answer.name)
         && (if answer.result == Missing || answer.result == Null
             then response.response.Output? && response.response.isError == answer.isError && Joins(answer.content, response.response.output)
             else response.response == answer.result)
         && part == Part(None, None, None, None, Some(response), "", Missing, Missing, Missing, false)
    case OtherKind(_) => false
  }

  lemma ContentConveyed(content: Content, before: seq<Content>, upstream: string)
    requires ContentToPart(content, before, upstream).Some?
    ensures Conveys(ContentToPart(content, before, upstream).value, content, upstream)
  {
    hide Joins;
    DemandsExactly(upstream);
    if content.kind == Answer && !content.answer.value.result.Present() {
      JoinsExactly(content.answer.value.content);
    }
  }

  // Every content of a translated conversation has its part, in its place, and the part
  // conveys it.
  lemma ContentsConveyed(messages: seq<Message>, upstream: string, m: nat, c: nat)
    requires Rendered(messages, upstream).Some? && m < |messages| && c < |messages[m].content|
    ensures var rendered := Rendered(messages, upstream).value;
            && |rendered| == |messages| && rendered[m].0 == messages[m].role && |rendered[m].1| == |messages[m].content|
            && Conveys(rendered[m].1[c], messages[m].content[c], upstream)
  {
    hide Conveys;
    hide ContentToPart;
    var content := messages[m].content;
    RenderedAt(messages, upstream, m);
    PartsAt(content, |content|, Items(messages[..m]), upstream, c);
    ContentConveyed(content[c], Items(messages[..m]) + content[..c], upstream);
  }
}
