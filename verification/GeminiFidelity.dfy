// What each part of a Gemini request has become in its translation, in terms of the part
// itself and of the contents before it.
module GeminiFidelity {
  import opened Options
  import opened Text
  import opened IR
  import opened Gemini
  import opened GeminiMatching

  // The call a response answers: its own ID, or else the oldest call of its function that
  // still waits.
  ghost predicate AnswersOldest(response: FunctionResponse, id: string, before: seq<Content>) {
    var waiting := Waiting(before, response.name);
    if response.id != "" then id == response.id && id in waiting else waiting != [] && id == waiting[0]
  }

  // The item says what the part says, and nothing else.
  ghost predicate Says(item: Content, part: Part, before: seq<Content>, requestID: string, m: nat, p: nat) {
    && (part.text.Some? ==> item == Content(Text, part.text.value, None, None, None))
    && (part.inlineData.Some? ==>
          item == Content(Picture, "", Some(Image(NoURL, part.inlineData.value.mimeType, part.inlineData.value.data)), None, None))
    && (part.functionCall.Some? ==>
          && item.kind == Call && item.text == "" && item.image == None && item.call.Some? && item.answer == None
          && var call, given := item.call.value, part.functionCall.value;
             && call.name == given.name && call.signature == part.thoughtSignature
             && call.id == (if given.id != "" then given.id else requestID + "-call-" + Decimal(m) + "-" + Decimal(p))
             && call.arguments == if given.args == Missing || given.args == Null then Object("{}") else given.args)
    && (part.functionResponse.Some? ==>
          && item.kind == Answer && item.text == "" && item.image == None && item.call == None && item.answer.Some?
          && var answer, given := item.answer.value, part.functionResponse.value;
             && answer.name == given.name && answer.result == given.response && answer.content == [] && !answer.isError
             && AnswersOldest(given, answer.callID, before))
  }

  lemma PartExactly(item: Content, part: Part, turn: Turn, before: seq<Content>, requestID: string, m: nat, p: nat)
    ensures PartToIR(part, turn, before, requestID, m, p) == Some(item) <==> Acceptable(part, turn) && Says(item, part, before, requestID, m, p)
  {
  }

  // The first `n` parts of the turn are acceptable, and the contents say them.
  ghost predicate PartsSaid(content: seq<Content>, turn: Turn, n: nat, before: seq<Content>, requestID: string, m: nat)
    requires n <= |turn.parts|
  {
    && |content| == n
    && forall p :: 0 <= p < n ==>
         Acceptable(turn.parts[p], turn) && Says(content[p], turn.parts[p], before + content[..p], requestID, m, p)
  }

  lemma {:induction false} PartsExactly(content: seq<Content>, turn: Turn, n: nat, before: seq<Content>, requestID: string, m: nat)
    requires n <= |turn.parts|
    ensures PartsToIR(turn, n, before, requestID, m) == Some(content) <==> PartsSaid(content, turn, n, before, requestID, m)
  {
    hide PartToIR;
    hide Acceptable;
    hide Says;
    if n > 0 && |content| == n {
      var init := content[..n - 1];
      PartsExactly(init, turn, n - 1, before, requestID, m);
      PartExactly(content[n - 1], turn.parts[n - 1], turn, before + init, requestID, m, n - 1);
      assert content == init + [content[n - 1]];
      assert forall p :: 0 <= p < n - 1 ==> init[..p] == content[..p] && init[p] == content[p];
    } else if n > 0 {
      PartsLength(turn, n, before, requestID, m);
    }
  }

  lemma {:induction false} PartsLength(turn: Turn, n: nat, before: seq<Content>, requestID: string, m: nat)
    requires n <= |turn.parts|
    ensures PartsToIR(turn, n, before, requestID, m).Some? ==> |PartsToIR(turn, n, before, requestID, m).value| == n
  {
    hide PartToIR;
    if n > 0 {
      PartsLength(turn, n - 1, before, requestID, m);
    }
  }

  // The message says the turn: user turns may leave their role out, and function responses,
  // which come from the user, make a tool message.
  ghost predicate TurnSaid(message: Message, turn: Turn, before: seq<Content>, requestID: string, m: nat) {
    && turn.role in ["", "user", "model"] && turn.parts != [] && (turn.role == "model" ==> NoResponses(turn))
    && message.role == (if turn.role == "model" then Assistant else if NoResponses(turn) then User else Tool)
    && PartsSaid(message.content, turn, |turn.parts|, before, requestID, m)
  }

  lemma TurnExactly(message: Message, turn: Turn, before: seq<Content>, requestID: string, m: nat)
    ensures TurnToIR(turn, before, requestID, m) == Some(message) <==> TurnSaid(message, turn, before, requestID, m)
  {
    hide PartsSaid;
    PartsExactly(message.content, turn, |turn.parts|, before, requestID, m);
  }

  // Every turn is said by its message, in its place after the system's.
  ghost predicate Translation(messages: seq<Message>, system: seq<Message>, turns: seq<Turn>, requestID: string) {
    && |messages| == |system| + |turns| && messages[..|system|] == system
    && forall m :: 0 <= m < |turns| ==> TurnSaid(messages[|system| + m], turns[m], Items(messages[..|system| + m]), requestID, m)
  }

  // Contents are translated exactly when every turn has a possible role, every part is
  // acceptable and every response has a call to answer; each part of the result then says
  // what its part says.
  lemma {:induction false} TranslatedExactly(messages: seq<Message>, system: seq<Message>, turns: seq<Turn>, requestID: string)
    ensures TurnsToIR(system, turns, requestID) == Some(messages) <==> Translation(messages, system, turns, requestID)
  {
    hide TurnToIR;
    hide Translation;
    var n, last := |system| + |turns|, |turns| - 1;
    TurnsLength(system, turns, requestID);
    TranslationLength(messages, system, turns, requestID);
    if turns != [] && |messages| == n {
      var init := messages[..n - 1];
      TranslatedExactly(init, system, turns[..last], requestID);
      TurnExactly(messages[n - 1], turns[last], Items(init), requestID, last);
      assert messages == init + [messages[n - 1]] && turns == turns[..last] + [turns[last]];
      TranslationAppend(init, messages[n - 1], system, turns[..last], turns[last], requestID);
    }
  }

  lemma TranslationLength(messages: seq<Message>, system: seq<Message>, turns: seq<Turn>, requestID: string)
    ensures Translation(messages, system, turns, requestID) ==> |messages| == |system| + |turns|
    ensures turns == [] ==> (Translation(messages, system, turns, requestID) <==> messages == system)
  {
    assert |messages| == |system| ==> messages[..|system|] == messages;
  }

  lemma TranslationAppend(init: seq<Message>, message: Message, system: seq<Message>, turns: seq<Turn>, turn: Turn, requestID: string)
    requires |init| == |system| + |turns|
    ensures Translation(init + [message], system, turns + [turn], requestID) <==>
            Translation(init, system, turns, requestID) && TurnSaid(message, turn, Items(init), requestID, |turns|)
  {
    hide TurnSaid;
    var messages, all := init + [message], turns + [turn];
    assert init[..|system|] == messages[..|system|];
    assert messages[..|system| + |turns|] == init;
    forall m | 0 <= m < |turns|
      ensures TurnSaid(init[|system| + m], turns[m], Items(init[..|system| + m]), requestID, m) <==>
              TurnSaid(messages[|system| + m], all[m], Items(messages[..|system| + m]), requestID, m)
    {
      assert init[..|system| + m] == messages[..|system| + m];
    }
    if Translation(messages, system, all, requestID) {
      forall m | 0 <= m < |turns|
        ensures TurnSaid(init[|system| + m], turns[m], Items(init[..|system| + m]), requestID, m)
      {
        assert TurnSaid(messages[|system| + m], all[m], Items(messages[..|system| + m]), requestID, m);
      }
      assert TurnSaid(messages[|system| + |turns|], all[|turns|], Items(messages[..|system| + |turns|]), requestID, |turns|);
    }
  }

  lemma {:induction false} TurnsLength(system: seq<Message>, turns: seq<Turn>, requestID: string)
    ensures TurnsToIR(system, turns, requestID).Some? ==> |TurnsToIR(system, turns, requestID).value| == |system| + |turns|
  {
    hide TurnToIR;
    if turns != [] {
      TurnsLength(system, turns[..|turns| - 1], requestID);
    }
  }

  // The contents before a part: those of the messages before its own, and the parts
  // before it.
  ghost function Before(system: seq<Message>, messages: seq<Message>, m: nat, p: nat): seq<Content>
    requires |system| + m < |messages| && p <= |messages[|system| + m].content|
  {
    Items(messages[..|system| + m]) + messages[|system| + m].content[..p]
  }

  // ---- The oldest call ----

  // The first of the IDs that is not among those gone.
  ghost predicate FirstLeft(ids: seq<string>, gone: seq<string>, id: string) {
    exists k :: 0 <= k < |ids| && ids[k] == id && id !in gone && forall i :: 0 <= i < k ==> ids[i] in gone
  }

  lemma {:induction false} WithoutHead(ids: seq<string>, gone: seq<string>)
    requires Without(ids, gone) != []
    ensures FirstLeft(ids, gone, Without(ids, gone)[0])
  {
    var n := |ids| - 1;
    var init := ids[..n];
    if Without(init, gone) != [] {
      WithoutHead(init, gone);
      var id := Without(init, gone)[0];
      var k :| 0 <= k < |init| && init[k] == id && id !in gone && forall i :: 0 <= i < k ==> init[i] in gone;
      assert ids[k] == id && forall i :: 0 <= i < k ==> ids[i] == init[i];
    } else {
      WithoutMembers(init, gone);
      forall i | 0 <= i < n
        ensures ids[i] in gone
      {
        assert ids[i] == init[i] && init[i] in init;
      }
      assert Without(ids, gone) == [ids[n]];
      assert ids[n] == Without(ids, gone)[0];
    }
  }

  lemma PartSaid(messages: seq<Message>, system: seq<Message>, turns: seq<Turn>, requestID: string, m: nat, p: nat)
    requires TurnsToIR(system, turns, requestID) == Some(messages) && m < |turns| && p < |turns[m].parts|
    ensures |messages| == |system| + |turns| && p < |messages[|system| + m].content|
    ensures Says(messages[|system| + m].content[p], turns[m].parts[p], Before(system, messages, m, p), requestID, m, p)
    ensures exists more :: Items(messages) == Before(system, messages, m, p) + more
  {
    hide TurnsToIR;
    hide Items;
    hide Says;
    hide Acceptable;
    hide NoResponses;
    TranslatedExactly(messages, system, turns, requestID);
    var before := Items(messages[..|system| + m]);
    assert TurnSaid(messages[|system| + m], turns[m], before, requestID, m);
    assert PartsSaid(messages[|system| + m].content, turns[m], |turns[m].parts|, before, requestID, m);
    ItemsSplit(messages, |system| + m);
    var content := messages[|system| + m].content;
    var more :| Items(messages) == before + content + more;
    assert Items(messages) == Before(system, messages, m, p) + (content[p..] + more);
  }

  // With distinct call IDs a response without an ID answers the first call of its function
  // that no response before it answered.
  lemma OldestIsAnswered(messages: seq<Message>, system: seq<Message>, turns: seq<Turn>, requestID: string, m: nat, p: nat)
    requires NoTools(Items(system)) && TurnsToIR(system, turns, requestID) == Some(messages) && m < |turns| && p < |turns[m].parts|
    requires UniqueCalls(Items(messages))
    requires turns[m].parts[p].functionResponse.Some? && turns[m].parts[p].functionResponse.value.id == ""
    ensures |messages| == |system| + |turns| && p < |messages[|system| + m].content|
    ensures var before, item := Before(system, messages, m, p), messages[|system| + m].content[p];
            var name := turns[m].parts[p].functionResponse.value.name;
            item.answer.Some? && FirstLeft(CallIDs(before, name), AnswerIDs(before, name), item.answer.value.callID)
  {
    hide TurnsToIR;
    hide UniqueCalls;
    hide Matched;
    hide CallIDs;
    hide AnswerIDs;
    hide Without;
    hide FirstLeft;
    hide Items;
    PartSaid(messages, system, turns, requestID, m, p);
    TurnsMatched(system, turns, requestID);
    var before, name := Before(system, messages, m, p), turns[m].parts[p].functionResponse.value.name;
    var more :| Items(messages) == before + more;
    PrefixMatched(before, more);
    WaitingIsUnanswered(before, name);
    WithoutHead(CallIDs(before, name), AnswerIDs(before, name));
  }

  lemma {:induction false} PrefixMatched(items: seq<Content>, more: seq<Content>)
    requires Matched(items + more) && UniqueCalls(items + more)
    ensures Matched(items) && UniqueCalls(items)
    decreases |more|
  {
    if more == [] {
      assert items + more == items;
    } else {
      var init := more[..|more| - 1];
      assert (items + more)[..|items + more| - 1] == items + init;
      UniqueBefore(items + more);
      PrefixMatched(items, init);
    }
  }
}
