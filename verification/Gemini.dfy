// The Gemini wire contents and their translation into the provider-neutral messages:
// function responses are matched with the calls still waiting for one.
module Gemini {
  import opened Options
  import opened Text
  import opened IR

  datatype Blob = Blob(mimeType: string, data: Data)

  datatype FunctionCall = FunctionCall(id: string, name: string, args: Json)

  // `continues` stands for a willContinue that is given.
  datatype FunctionResponse = FunctionResponse(id: string, name: string, response: Json, continues: bool, scheduling: string)

  // `thought` stands for a thought that is given.
  datatype Part = Part(
    text: Option<string>, inlineData: Option<Blob>, fileData: Option<string>, functionCall: Option<FunctionCall>,
    functionResponse: Option<FunctionResponse>, thoughtSignature: string, executableCode: Json, codeExecution: Json,
    videoMetadata: Json, thought: bool)

  datatype Turn = Turn(role: string, parts: seq<Part>)

  function Count(present: bool): nat {
    if present then 1 else 0
  }

  function VariantCount(part: Part): nat {
    Count(part.text.Some?) + Count(part.inlineData.Some?) + Count(part.fileData.Some?) + Count(part.functionCall.Some?)
    + Count(part.functionResponse.Some?) + Count(part.executableCode.Present()) + Count(part.codeExecution.Present())
  }

  predicate Answering(turn: Turn) {
    exists part <- turn.parts :: part.functionResponse.Some?
  }

  predicate FromModel(turn: Turn) {
    turn.role == "model"
  }

  // A missing role is the user's; function responses need it.
  predicate RoleOk(turn: Turn) {
    turn.role in ["", "user", "model"] && turn.parts != [] && (Answering(turn) ==> !FromModel(turn))
  }

  function RoleFor(turn: Turn): Role {
    if FromModel(turn) then Assistant else if Answering(turn) then Tool else User
  }

  // Nothing of what the portable subset has no form for.
  predicate Bare(part: Part) {
    && part.fileData == None && !part.thought && part.executableCode in {Missing, Null} && part.codeExecution in {Missing, Null}
    && part.videoMetadata in {Missing, Null}
  }

  predicate HasOnly(part: Part, text: bool, inlineData: bool, call: bool, response: bool) {
    && Bare(part) && part.text.Some? == text && part.inlineData.Some? == inlineData
    && part.functionCall.Some? == call && part.functionResponse.Some? == response
    && (part.thoughtSignature != "" ==> call)
  }

  predicate NoResponses(turn: Turn) {
    forall part <- turn.parts :: part.functionResponse == None
  }

  // What a part must be, whatever calls are waiting: one text, one inline image, one call
  // by the model, or one response, which keeps to itself.
  predicate Acceptable(part: Part, turn: Turn) {
    || (HasOnly(part, true, false, false, false) && NoResponses(turn))
    || (HasOnly(part, false, true, false, false) && NoResponses(turn)
        && ImageType(part.inlineData.value.mimeType) && part.inlineData.value.data.Base64?)
    || (HasOnly(part, false, false, true, false) && NoResponses(turn) && turn.role == "model"
        && !Blank(part.functionCall.value.name) && (part.functionCall.value.args in {Missing, Null} || part.functionCall.value.args.IsObject()))
    || (HasOnly(part, false, false, false, true)
        && !Blank(part.functionResponse.value.name) && part.functionResponse.value.response.IsObject()
        && !part.functionResponse.value.continues && part.functionResponse.value.scheduling == "")
  }

  // ---- Call IDs ----

  function Decimal(n: nat): string {
    var digit := ["0", "1", "2", "3", "4", "5", "6", "7", "8", "9"][n % 10];
    if n < 10 then digit else Decimal(n / 10) + digit
  }

  function CallID(call: FunctionCall, requestID: string, turn: nat, part: nat): string {
    if call.id == "" then requestID + "-call-" + Decimal(turn) + "-" + Decimal(part) else call.id
  }

  // ---- The calls that wait for a response, by the contents so far ----

  function RemoveFirst(ids: seq<string>, id: string): seq<string> {
    if ids == [] then [] else if ids[0] == id then ids[1..] else [ids[0]] + RemoveFirst(ids[1..], id)
  }

  predicate CallsNamed(item: Content, name: string) {
    item.kind == Call && item.call.Some? && item.call.value.name == name
  }

  predicate AnswersNamed(item: Content, name: string) {
    item.kind == Answer && item.answer.Some? && item.answer.value.name == name
  }

  // The IDs of the unanswered calls of a function, the oldest first.
  function Waiting(items: seq<Content>, name: string): seq<string> {
    if items == [] then []
    else
      var before, last := Waiting(items[..|items| - 1], name), items[|items| - 1];
      if CallsNamed(last, name) then before + [last.call.value.id]
      else if AnswersNamed(last, name) then RemoveFirst(before, last.answer.value.callID)
      else before
  }

  // ---- What the translation yields ----

  function AnswerID(response: FunctionResponse, before: seq<Content>): Option<string> {
    var waiting := Waiting(before, response.name);
    if response.id == "" then if waiting == [] then None else Some(waiting[0])
    else if response.id in waiting then Some(response.id) else None
  }

  function PartToIR(part: Part, turn: Turn, before: seq<Content>, requestID: string, m: nat, p: nat): Option<Content> {
    if !Acceptable(part, turn) then None
    else if part.text.Some? then Some(TextContent(part.text.value))
    else if part.inlineData.Some? then
      Some(ImageContent(Image(NoURL, part.inlineData.value.mimeType, part.inlineData.value.data)))
    else if part.functionCall.Some? then
      var call := part.functionCall.value;
      Some(CallContent(ToolCall(CallID(call, requestID, m, p), call.name, if call.args.Present() then call.args else Object("{}"), part.thoughtSignature)))
    else if part.functionResponse.Some? then
      var response := part.functionResponse.value;
      var id := AnswerID(response, before);
      if id.None? then None else Some(AnswerContent(ToolResult(id.value, response.name, [], response.response, false)))
    else None
  }

  // The first `n` parts of a turn.
  function PartsToIR(turn: Turn, n: nat, before: seq<Content>, requestID: string, m: nat): Option<seq<Content>>
    requires n <= |turn.parts|
  {
    if n == 0 then Some([])
    else
      var init := PartsToIR(turn, n - 1, before, requestID, m);
      if init.None? then None
      else
        var item := PartToIR(turn.parts[n - 1], turn, before + init.value, requestID, m, n - 1);
        if item.None? then None else Some(init.value + [item.value])
  }

  function TurnToIR(turn: Turn, before: seq<Content>, requestID: string, m: nat): Option<Message> {
    if !RoleOk(turn) then None
    else
      var content := PartsToIR(turn, |turn.parts|, before, requestID, m);
      if content.None? then None else Some(Message(RoleFor(turn), content.value))
  }

  function TurnsToIR(system: seq<Message>, turns: seq<Turn>, requestID: string): Option<seq<Message>> {
    if turns == [] then Some(system)
    else
      var last := |turns| - 1;
      var init := TurnsToIR(system, turns[..last], requestID);
      if init.None? then None
      else
        var message := TurnToIR(turns[last], Items(init.value), requestID, last);
        if message.None? then None else Some(init.value + [message.value])
  }

  // ---- The code ----

  ghost predicate Queues(pending: map<string, seq<string>>, items: seq<Content>) {
    forall name :: Waiting(items, name) == if name in pending then pending[name] else []
  }

  lemma QueueAppend(pending: map<string, seq<string>>, items: seq<Content>, item: Content, name: string, ids: seq<string>)
    requires Queues(pending, items) && Waiting(items + [item], name) == ids
    requires forall other :: other != name ==> !CallsNamed(item, other) && !AnswersNamed(item, other)
    ensures Queues(pending[name := ids], items + [item])
  {
    assert (items + [item])[..|items|] == items;
  }

  lemma QueueSame(pending: map<string, seq<string>>, items: seq<Content>, item: Content)
    requires Queues(pending, items) && item.kind != Call && item.kind != Answer
    ensures Queues(pending, items + [item])
  {
    assert (items + [item])[..|items|] == items;
  }

  lemma {:induction false} RemoveFirstAt(ids: seq<string>, i: nat)
    requires i < |ids| && ids[i] !in ids[..i]
    ensures RemoveFirst(ids, ids[i]) == ids[..i] + ids[i + 1..]
  {
    if i > 0 {
      assert ids[0] in ids[..i];
      assert forall id <- ids[1..][..i - 1] :: id in ids[..i];
      RemoveFirstAt(ids[1..], i - 1);
    }
  }

  // Takes the call a response answers out of its queue.
  method TakeCall(response: FunctionResponse, pending: map<string, seq<string>>, ghost before: seq<Content>)
    returns (taken: Option<string>, after: map<string, seq<string>>)
    requires Queues(pending, before)
    ensures taken == AnswerID(response, before)
    ensures taken.Some? ==>
              Queues(after, before + [AnswerContent(ToolResult(taken.value, response.name, [], response.response, false))])
  {
    var calls := if response.name in pending then pending[response.name] else [];
    if response.id == "" {
      if calls == [] {
        return None, pending;
      }
      RemoveFirstAt(calls, 0);
      TakenQueue(pending, before, response, calls[0]);
      return Some(calls[0]), pending[response.name := calls[1..]];
    }
    for i := 0 to |calls|
      invariant response.id !in calls[..i]
    {
      if calls[i] == response.id {
        RemoveFirstAt(calls, i);
        TakenQueue(pending, before, response, calls[i]);
        return Some(calls[i]), pending[response.name := calls[..i] + calls[i + 1..]];
      }
      assert calls[..i + 1] == calls[..i] + [calls[i]];
    }
    assert calls[..|calls|] == calls;
    return None, pending;
  }

  lemma TakenQueue(pending: map<string, seq<string>>, before: seq<Content>, response: FunctionResponse, id: string)
    requires Queues(pending, before)
    ensures var item := AnswerContent(ToolResult(id, response.name, [], response.response, false));
            Queues(pending[response.name := RemoveFirst(Waiting(before, response.name), id)], before + [item])
  {
    var item := AnswerContent(ToolResult(id, response.name, [], response.response, false));
    assert (before + [item])[..|before|] == before;
    QueueAppend(pending, before, item, response.name, RemoveFirst(Waiting(before, response.name), id));
  }

  method TranslatePart(part: Part, turn: Turn, pending: map<string, seq<string>>, requestID: string, m: nat, p: nat, ghost before: seq<Content>)
    returns (item: Option<Content>, after: map<string, seq<string>>)
    requires Queues(pending, before)
    ensures item == PartToIR(part, turn, before, requestID, m, p)
    ensures item.Some? ==> Queues(after, before + [item.value])
  {
    after := pending;
    item := None;
    var answering := Answering(turn);
    if VariantCount(part) != 1 || part.thought || part.videoMetadata.Present() || (part.thoughtSignature != "" && part.functionCall.None?) {
      return;
    }
    if part.text.Some? {
      if answering {
        return;
      }
      item := Some(TextContent(part.text.value));
      QueueSame(pending, before, item.value);
    } else if part.inlineData.Some? {
      var blob := part.inlineData.value;
      if answering || !ImageType(blob.mimeType) || !blob.data.Base64? {
        return;
      }
      item := Some(ImageContent(Image(NoURL, blob.mimeType, blob.data)));
      QueueSame(pending, before, item.value);
    } else if part.functionCall.Some? {
      var call := part.functionCall.value;
      TrimSpaceEmpties(call.name);
      var arguments := if call.args.Present() then call.args else Object("{}");
      if !FromModel(turn) || answering || TrimSpace(call.name) == "" || !arguments.IsObject() {
        return;
      }
      var id := CallID(call, requestID, m, p);
      var calls := if call.name in pending then pending[call.name] else [];
      item := Some(CallContent(ToolCall(id, call.name, arguments, part.thoughtSignature)));
      assert (before + [item.value])[..|before|] == before;
      QueueAppend(pending, before, item.value, call.name, calls + [id]);
      after := pending[call.name := calls + [id]];
    } else if part.functionResponse.Some? {
      var response := part.functionResponse.value;
      TrimSpaceEmpties(response.name);
      if TrimSpace(response.name) == "" || !response.response.IsObject() || response.continues || response.scheduling != "" {
        return;
      }
      var taken: Option<string>;
      taken, after := TakeCall(response, pending, before);
      item := if taken.None? then None else Some(AnswerContent(ToolResult(taken.value, response.name, [], response.response, false)));
    }
  }

  method TranslateTurn(turn: Turn, pending: map<string, seq<string>>, requestID: string, m: nat, ghost before: seq<Content>)
    returns (message: Option<Message>, after: map<string, seq<string>>)
    requires Queues(pending, before)
    ensures message == TurnToIR(turn, before, requestID, m)
    ensures message.Some? ==> Queues(after, before + message.value.content)
  {
    hide PartToIR;
    hide Queues;
    after := pending;
    if turn.role !in ["", "user", "model"] || turn.parts == [] {
      return None, after;
    }
    var answering := false;
    for p := 0 to |turn.parts|
      invariant answering <==> exists part <- turn.parts[..p] :: part.functionResponse.Some?
    {
      answering := answering || turn.parts[p].functionResponse.Some?;
      assert turn.parts[..p + 1] == turn.parts[..p] + [turn.parts[p]];
    }
    assert turn.parts[..|turn.parts|] == turn.parts;
    assert answering == Answering(turn);
    if answering && turn.role == "model" {
      return None, after;
    }
    var content: seq<Content> := [];
    assert before + content == before;
    for p := 0 to |turn.parts|
      invariant PartsToIR(turn, p, before, requestID, m) == Some(content)
      invariant Queues(after, before + content)
    {
      var item: Option<Content>;
      item, after := TranslatePart(turn.parts[p], turn, after, requestID, m, p, before + content);
      if item.None? {
        PartsStay(turn, p + 1, before, requestID, m);
        return None, after;
      }
      assert before + content + [item.value] == before + (content + [item.value]);
      content := content + [item.value];
    }
    var role := if turn.role == "model" then Assistant else if answering then Tool else User;
    return Some(Message(role, content)), after;
  }

  // A part that cannot be translated refuses its whole turn ...
  lemma {:induction false} PartsStay(turn: Turn, n: nat, before: seq<Content>, requestID: string, m: nat)
    requires n <= |turn.parts| && PartsToIR(turn, n, before, requestID, m).None?
    ensures PartsToIR(turn, |turn.parts|, before, requestID, m).None?
    decreases |turn.parts| - n
  {
    if n < |turn.parts| {
      PartsStay(turn, n + 1, before, requestID, m);
    }
  }

  // ... and a turn that cannot, the whole request.
  lemma {:induction false} TurnsStay(system: seq<Message>, turns: seq<Turn>, n: nat, requestID: string)
    requires n <= |turns| && TurnsToIR(system, turns[..n], requestID).None?
    ensures TurnsToIR(system, turns, requestID).None?
    decreases |turns| - n
  {
    if n < |turns| {
      assert turns[..n + 1][..n] == turns[..n];
      TurnsStay(system, turns, n + 1, requestID);
    } else {
      assert turns[..n] == turns;
    }
  }

  ghost predicate NoTools(items: seq<Content>) {
    forall item <- items :: item.kind != Call && item.kind != Answer
  }

  lemma {:induction false} NothingWaits(items: seq<Content>, name: string)
    requires NoTools(items)
    ensures Waiting(items, name) == []
  {
    if items != [] {
      NothingWaits(items[..|items| - 1], name);
    }
  }

  // The contents of a request, after its system instruction.
  method TranslateTurns(system: seq<Message>, turns: seq<Turn>, requestID: string) returns (messages: Option<seq<Message>>)
    requires NoTools(Items(system))
    ensures messages == TurnsToIR(system, turns, requestID)
  {
    hide TurnToIR;
    var done, pending: map<string, seq<string>> := system, map[];
    forall name
      ensures Waiting(Items(system), name) == []
    {
      NothingWaits(Items(system), name);
    }
    for m := 0 to |turns|
      invariant TurnsToIR(system, turns[..m], requestID) == Some(done)
      invariant Queues(pending, Items(done))
    {
      assert turns[..m + 1][..m] == turns[..m];
      var message: Option<Message>;
      message, pending := TranslateTurn(turns[m], pending, requestID, m, Items(done));
      if message.None? {
        TurnsStay(system, turns, m + 1, requestID);
        return None;
      }
      assert (done + [message.value])[..|done|] == done;
      done := done + [message.value];
    }
    assert turns[..|turns|] == turns;
    return Some(done);
  }
}
