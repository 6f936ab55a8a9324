// The matching of Gemini function responses with their calls loses nothing, takes the
// oldest call first, and satisfies the request validator's tool-result checks.
module GeminiMatching {
  import opened Options
  import opened Text
  import opened IR
  import opened Gemini

  // ---- Every answer takes a waiting call ----

  ghost predicate Takes(before: seq<Content>, item: Content) {
    item.kind == Answer ==> item.answer.Some? && item.answer.value.callID in Waiting(before, item.answer.value.name)
  }

  ghost predicate Matched(items: seq<Content>) {
    items == [] || (Matched(items[..|items| - 1]) && Takes(items[..|items| - 1], items[|items| - 1]))
  }

  lemma MatchedAppend(items: seq<Content>, item: Content)
    ensures Matched(items + [item]) <==> Matched(items) && Takes(items, item)
  {
    assert (items + [item])[..|items|] == items;
  }

  lemma {:induction false} NoToolsMatched(items: seq<Content>)
    requires NoTools(items)
    ensures Matched(items)
  {
    if items != [] {
      NoToolsMatched(items[..|items| - 1]);
    }
  }

  lemma PartTakes(part: Part, turn: Turn, before: seq<Content>, requestID: string, m: nat, p: nat)
    requires PartToIR(part, turn, before, requestID, m, p).Some?
    ensures Takes(before, PartToIR(part, turn, before, requestID, m, p).value)
  {
  }

  lemma {:induction false} PartsMatched(turn: Turn, n: nat, before: seq<Content>, requestID: string, m: nat)
    requires n <= |turn.parts| && Matched(before) && PartsToIR(turn, n, before, requestID, m).Some?
    ensures Matched(before + PartsToIR(turn, n, before, requestID, m).value)
  {
    hide PartToIR;
    hide Takes;
    if n == 0 {
      assert before + [] == before;
    } else {
      PartsMatched(turn, n - 1, before, requestID, m);
      var init := PartsToIR(turn, n - 1, before, requestID, m).value;
      var item := PartToIR(turn.parts[n - 1], turn, before + init, requestID, m, n - 1).value;
      PartTakes(turn.parts[n - 1], turn, before + init, requestID, m, n - 1);
      MatchedAppend(before + init, item);
      assert before + (init + [item]) == before + init + [item];
    }
  }

  lemma {:induction false} TurnsMatched(system: seq<Message>, turns: seq<Turn>, requestID: string)
    requires NoTools(Items(system)) && TurnsToIR(system, turns, requestID).Some?
    ensures Matched(Items(TurnsToIR(system, turns, requestID).value))
  {
    if turns == [] {
      NoToolsMatched(Items(system));
    } else {
      var last := |turns| - 1;
      TurnsMatched(system, turns[..last], requestID);
      var init := TurnsToIR(system, turns[..last], requestID).value;
      PartsMatched(turns[last], |turns[last].parts|, Items(init), requestID, last);
      var message := TurnToIR(turns[last], Items(init), requestID, last).value;
      assert (init + [message])[..|init|] == init;
    }
  }

  // ---- Conservation ----

  function CallIDs(items: seq<Content>, name: string): seq<string> {
    if items == [] then []
    else
      var last := items[|items| - 1];
      CallIDs(items[..|items| - 1], name) + if CallsNamed(last, name) then [last.call.value.id] else []
  }

  function AnswerIDs(items: seq<Content>, name: string): seq<string> {
    if items == [] then []
    else
      var last := items[|items| - 1];
      AnswerIDs(items[..|items| - 1], name) + if AnswersNamed(last, name) then [last.answer.value.callID] else []
  }

  lemma {:induction false} RemoveFirstBag(ids: seq<string>, id: string)
    requires id in ids
    ensures multiset(ids) == multiset(RemoveFirst(ids, id)) + multiset{id}
  {
    assert ids == [ids[0]] + ids[1..];
    if ids[0] != id {
      RemoveFirstBag(ids[1..], id);
    }
  }

  // At every point, and for every function name, the calls seen are the calls answered
  // plus the calls waiting.
  lemma {:induction false} CallsAreConserved(items: seq<Content>, name: string)
    requires Matched(items)
    ensures multiset(CallIDs(items, name)) == multiset(AnswerIDs(items, name)) + multiset(Waiting(items, name))
  {
    if items != [] {
      var init, last := items[..|items| - 1], items[|items| - 1];
      CallsAreConserved(init, name);
      if AnswersNamed(last, name) {
        RemoveFirstBag(Waiting(init, name), last.answer.value.callID);
      }
    }
  }

  // ---- The oldest unanswered call ----

  function Without(ids: seq<string>, gone: seq<string>): seq<string> {
    if ids == [] then []
    else
      var last := ids[|ids| - 1];
      Without(ids[..|ids| - 1], gone) + if last in gone then [] else [last]
  }

  lemma {:induction false} WithoutMembers(ids: seq<string>, gone: seq<string>)
    ensures forall id :: id in Without(ids, gone) <==> id in ids && id !in gone
  {
    if ids != [] {
      WithoutMembers(ids[..|ids| - 1], gone);
      assert ids == ids[..|ids| - 1] + [ids[|ids| - 1]];
    }
  }

  lemma {:induction false} WithoutMore(ids: seq<string>, gone: seq<string>, id: string)
    requires NoDuplicates(ids)
    ensures Without(ids, gone + [id]) == RemoveFirst(Without(ids, gone), id)
  {
    if ids != [] {
      var init, last := ids[..|ids| - 1], ids[|ids| - 1];
      WithoutMore(init, gone, id);
      WithoutMembers(init, gone);
      LastRemoved(init, last, gone, id);
    }
  }

  lemma LastRemoved(init: seq<string>, last: string, gone: seq<string>, id: string)
    requires last !in init && (forall other :: other in Without(init, gone) <==> other in init && other !in gone)
    ensures RemoveFirst(Without(init, gone), id) + (if last in gone + [id] then [] else [last])
         == RemoveFirst(Without(init, gone) + (if last in gone then [] else [last]), id)
  {
    var kept := Without(init, gone);
    RemoveFirstAppend(kept, last, id);
    assert last in gone + [id] <==> last in gone || last == id;
    assert kept + [] == kept && RemoveFirst(kept, id) + [] == RemoveFirst(kept, id);
  }

  lemma {:induction false} RemoveFirstAppend(ids: seq<string>, last: string, id: string)
    ensures RemoveFirst(ids + [last], id) ==
            if id in ids then RemoveFirst(ids, id) + [last] else if id == last then ids else ids + [last]
    ensures id !in ids ==> RemoveFirst(ids, id) == ids
  {
    if ids == [] {
      assert ids + [last] == [last];
    } else {
      assert (ids + [last])[1..] == ids[1..] + [last];
      RemoveFirstAppend(ids[1..], last, id);
      assert ids == [ids[0]] + ids[1..];
    }
  }

  lemma {:induction false} CallIDsCalled(items: seq<Content>, name: string, id: string)
    ensures id in CallIDs(items, name) <==> exists i: nat :: CallsAt(items, i, id) && items[i].call.value.name == name
  {
    if items != [] {
      var n := |items| - 1;
      CallIDsCalled(items[..n], name, id);
      assert forall i: nat :: i < n ==> (CallsAt(items[..n], i, id) <==> CallsAt(items, i, id));
      if i: nat :| CallsAt(items, i, id) && items[i].call.value.name == name {
        assert i < n ==> CallsAt(items[..n], i, id) && items[..n][i].call.value.name == name;
      }
      if i: nat :| CallsAt(items[..n], i, id) && items[..n][i].call.value.name == name {
        assert CallsAt(items, i, id) && items[i].call.value.name == name;
      }
      if CallsNamed(items[n], name) && items[n].call.value.id == id {
        assert CallsAt(items, n, id);
      }
    }
  }

  lemma UniqueBefore(items: seq<Content>)
    requires UniqueCalls(items) && items != []
    ensures UniqueCalls(items[..|items| - 1])
    ensures items[|items| - 1].kind == Call && items[|items| - 1].call.Some? ==> !HasCall(items[..|items| - 1], items[|items| - 1].call.value.id)
  {
    var n := |items| - 1;
    forall i: nat, id | CallsAt(items[..n], i, id)
      ensures CallsAt(items, i, id)
      ensures forall j: nat :: i < j ==> !CallsAt(items[..n], j, id)
      ensures items[n].kind == Call && items[n].call.Some? ==> items[n].call.value.id != id
    {
      assert CallsAt(items, i, id);
      forall j: nat | i < j
        ensures !CallsAt(items[..n], j, id)
      {
        assert CallsAt(items[..n], j, id) ==> CallsAt(items, j, id);
      }
      assert items[n].kind == Call && items[n].call.Some? ==> CallsAt(items, n, items[n].call.value.id);
    }
  }

  lemma {:induction false} CallIDsDistinct(items: seq<Content>, name: string)
    requires UniqueCalls(items)
    ensures NoDuplicates(CallIDs(items, name))
  {
    if items != [] {
      var init, last := items[..|items| - 1], items[|items| - 1];
      UniqueBefore(items);
      CallIDsDistinct(init, name);
      if CallsNamed(last, name) {
        CallIDsCalled(init, name, last.call.value.id);
        assert last.call.value.id !in CallIDs(init, name);
      }
    }
  }

  lemma {:induction false} AnswersAreCalled(items: seq<Content>, name: string)
    requires Matched(items)
    ensures forall id <- AnswerIDs(items, name) :: id in CallIDs(items, name)
  {
    CallsAreConserved(items, name);
    forall id <- AnswerIDs(items, name)
      ensures id in CallIDs(items, name)
    {
      assert id in multiset(AnswerIDs(items, name));
      assert id in multiset(CallIDs(items, name));
    }
  }

  // With distinct call IDs the calls waiting for a name are its calls, in their order,
  // without those answered: its head is the oldest unanswered call.
  lemma {:induction false} WaitingIsUnanswered(items: seq<Content>, name: string)
    requires Matched(items) && UniqueCalls(items)
    ensures Waiting(items, name) == Without(CallIDs(items, name), AnswerIDs(items, name))
  {
    if items != [] {
      var init, last := items[..|items| - 1], items[|items| - 1];
      UniqueBefore(items);
      WaitingIsUnanswered(init, name);
      CallIDsDistinct(init, name);
      var calls, answers := CallIDs(init, name), AnswerIDs(init, name);
      if CallsNamed(last, name) {
        CallIDsCalled(init, name, last.call.value.id);
        AnswersAreCalled(init, name);
        assert (calls + [last.call.value.id])[..|calls|] == calls;
        assert last.call.value.id !in answers;
        assert answers + [] == answers;
      } else if AnswersNamed(last, name) {
        WithoutMore(calls, answers, last.answer.value.callID);
        assert calls + [] == calls;
      } else {
        assert calls + [] == calls && answers + [] == answers;
      }
    }
  }

  // ---- The validator's tool-result checks ----

  lemma WaitingCalled(items: seq<Content>, name: string, id: string)
    requires Matched(items) && id in Waiting(items, name)
    ensures exists i: nat :: CallsAt(items, i, id) && items[i].call.value.name == name
  {
    CallsAreConserved(items, name);
    assert id in multiset(Waiting(items, name));
    assert id in multiset(CallIDs(items, name));
    CallIDsCalled(items, name, id);
  }

  lemma {:induction false} AnsweredNamed(items: seq<Content>, i: nat, id: string)
    requires AnswersAt(items, i, id)
    ensures id in AnswerIDs(items, items[i].answer.value.name)
  {
    var n := |items| - 1;
    if i < n {
      assert AnswersAt(items[..n], i, id);
      AnsweredNamed(items[..n], i, id);
    }
  }

  lemma AnsweredName(items: seq<Content>, i: nat, id: string)
    requires Matched(items) && AnswersAt(items, i, id)
    ensures id in AnswerIDs(items, items[i].answer.value.name) && id in CallIDs(items, items[i].answer.value.name)
  {
    AnsweredNamed(items, i, id);
    AnswersAreCalled(items, items[i].answer.value.name);
  }

  lemma OneName(items: seq<Content>, id: string, name: string, other: string)
    requires UniqueCalls(items) && id in CallIDs(items, name) && id in CallIDs(items, other)
    ensures name == other
  {
    CallIDsCalled(items, name, id);
    CallIDsCalled(items, other, id);
    var a: nat :| CallsAt(items, a, id) && items[a].call.value.name == name;
    var b: nat :| CallsAt(items, b, id) && items[b].call.value.name == other;
    assert !(a < b) && !(b < a);
  }

  lemma WaitingUnanswered(items: seq<Content>, name: string, id: string)
    requires Matched(items) && UniqueCalls(items) && id in Waiting(items, name)
    ensures !HasAnswer(items, id)
  {
    WaitingIsUnanswered(items, name);
    WithoutMembers(CallIDs(items, name), AnswerIDs(items, name));
    forall i: nat | AnswersAt(items, i, id)
      ensures false
    {
      AnsweredName(items, i, id);
      OneName(items, id, name, items[i].answer.value.name);
    }
  }

  // With distinct call IDs no tool-result check of the validator can fail.
  lemma {:induction false} MatchedLinks(items: seq<Content>)
    requires Matched(items)
    ensures Linked(items) <==> UniqueCalls(items)
  {
    if items != [] && UniqueCalls(items) {
      var init, last := items[..|items| - 1], items[|items| - 1];
      assert items == init + [last];
      UniqueBefore(items);
      MatchedLinks(init);
      if last.kind == Answer {
        var id, name := last.answer.value.callID, last.answer.value.name;
        WaitingCalled(init, name, id);
        var i: nat :| CallsAt(init, i, id) && init[i].call.value.name == name;
        assert CallsAt(init, i, id) && NameFits(init[i], last);
        WaitingUnanswered(init, name, id);
      }
      LinkedAppend(init, last);
    }
  }

  // ---- What the validator says of a translated request ----

  ghost predicate SystemOnly(system: seq<Message>) {
    (forall message <- system :: ValidMessage(message) && message.role == System) && NoTools(Items(system))
  }

  predicate PictureFree(turn: Turn) {
    turn.role == "model" ==> forall part <- turn.parts :: part.inlineData == None
  }

  ghost predicate NamedIDs(items: seq<Content>) {
    forall i: nat, id :: CallsAt(items, i, id) ==> id != ""
  }

  lemma PartValid(part: Part, turn: Turn, before: seq<Content>, requestID: string, m: nat, p: nat)
    requires PartToIR(part, turn, before, requestID, m, p).Some? && RoleOk(turn) && part in turn.parts && Matched(before) && NamedIDs(before)
    ensures var item := PartToIR(part, turn, before, requestID, m, p).value;
            ValidContent(item) && NamedIDs(before + [item]) && (Allowed(RoleFor(turn), item.kind) <==> !(FromModel(turn) && part.inlineData.Some?))
  {
    var item := PartToIR(part, turn, before, requestID, m, p).value;
    var all := before + [item];
    forall i: nat, id | CallsAt(all, i, id)
      ensures id != ""
    {
      assert i < |before| ==> CallsAt(before, i, id);
    }
    if item.kind == Answer {
      WaitingCalled(before, item.answer.value.name, item.answer.value.callID);
      var i: nat :| CallsAt(before, i, item.answer.value.callID);
    }
    TrimEmpty();
  }

  lemma TrimEmpty()
    ensures TrimSpace("") == ""
  {
  }

  lemma {:induction false} PartsValid(turn: Turn, n: nat, before: seq<Content>, requestID: string, m: nat)
    requires n <= |turn.parts| && RoleOk(turn) && Matched(before) && NamedIDs(before) && PartsToIR(turn, n, before, requestID, m).Some?
    ensures var content := PartsToIR(turn, n, before, requestID, m).value;
            && |content| == n && NamedIDs(before + content) && (forall item <- content :: ValidContent(item))
            && ((forall item <- content :: Allowed(RoleFor(turn), item.kind)) <==>
                (FromModel(turn) ==> forall part <- turn.parts[..n] :: part.inlineData.None?))
  {
    hide PartToIR;
    hide ValidContent;
    hide RoleOk;
    if n == 0 {
      assert before + [] == before;
    } else {
      PartsValid(turn, n - 1, before, requestID, m);
      PartsMatched(turn, n - 1, before, requestID, m);
      var init := PartsToIR(turn, n - 1, before, requestID, m).value;
      var item := PartToIR(turn.parts[n - 1], turn, before + init, requestID, m, n - 1).value;
      PartValid(turn.parts[n - 1], turn, before + init, requestID, m, n - 1);
      assert before + (init + [item]) == before + init + [item];
      assert turn.parts[..n] == turn.parts[..n - 1] + [turn.parts[n - 1]];
      assert forall other :: other in init + [item] <==> other in init || other == item;
    }
  }

  lemma TurnValid(turn: Turn, before: seq<Content>, requestID: string, m: nat)
    requires Matched(before) && NamedIDs(before) && TurnToIR(turn, before, requestID, m).Some?
    ensures var message := TurnToIR(turn, before, requestID, m).value;
            message.role != System && NamedIDs(before + message.content) && (ValidMessage(message) <==> PictureFree(turn))
  {
    PartsValid(turn, |turn.parts|, before, requestID, m);
    assert turn.parts[..|turn.parts|] == turn.parts;
  }

  lemma {:induction false} TurnsShape(system: seq<Message>, turns: seq<Turn>, requestID: string)
    requires SystemOnly(system) && TurnsToIR(system, turns, requestID).Some?
    ensures var messages := TurnsToIR(system, turns, requestID).value;
            && |messages| == |system| + |turns| && messages[..|system|] == system && NamedIDs(Items(messages))
            && (forall i :: |system| <= i < |messages| ==> messages[i].role != System)
  {
    hide TurnToIR;
    hide NamedIDs;
    if turns == [] {
      SystemNamed(Items(system));
    } else {
      var last := |turns| - 1;
      TurnsShape(system, turns[..last], requestID);
      TurnsMatched(system, turns[..last], requestID);
      var init := TurnsToIR(system, turns[..last], requestID).value;
      TurnValid(turns[last], Items(init), requestID, last);
      var message := TurnToIR(turns[last], Items(init), requestID, last).value;
      assert (init + [message])[..|init|] == init;
    }
  }

  lemma {:induction false} TurnsValid(system: seq<Message>, turns: seq<Turn>, requestID: string)
    requires SystemOnly(system) && TurnsToIR(system, turns, requestID).Some?
    ensures AllValid(TurnsToIR(system, turns, requestID).value) <==> AllPictureFree(turns)
  {
    hide TurnToIR;
    hide ValidMessage;
    hide PictureFree;
    hide NamedIDs;
    hide AllValid;
    hide AllPictureFree;
    SystemValid(system);
    if turns != [] {
      var last := |turns| - 1;
      TurnsValid(system, turns[..last], requestID);
      TurnsShape(system, turns[..last], requestID);
      TurnsMatched(system, turns[..last], requestID);
      var init := TurnsToIR(system, turns[..last], requestID).value;
      var message := TurnToIR(turns[last], Items(init), requestID, last).value;
      TurnValid(turns[last], Items(init), requestID, last);
      assert turns == turns[..last] + [turns[last]];
      AllAppend(init, message, turns[..last], turns[last]);
    }
  }

  ghost predicate AllValid(messages: seq<Message>) {
    forall message <- messages :: ValidMessage(message)
  }

  predicate AllPictureFree(turns: seq<Turn>) {
    forall turn <- turns :: PictureFree(turn)
  }

  lemma SystemValid(system: seq<Message>)
    requires SystemOnly(system)
    ensures AllValid(system) && AllPictureFree([])
  {
  }

  lemma AllAppend(messages: seq<Message>, message: Message, turns: seq<Turn>, turn: Turn)
    ensures AllValid(messages + [message]) <==> AllValid(messages) && ValidMessage(message)
    ensures AllPictureFree(turns + [turn]) <==> AllPictureFree(turns) && PictureFree(turn)
  {
    hide ValidMessage;
    hide PictureFree;
    assert forall other :: other in messages + [message] <==> other in messages || other == message;
    assert forall other :: other in turns + [turn] <==> other in turns || other == turn;
  }

  lemma SystemNamed(items: seq<Content>)
    requires NoTools(items)
    ensures NamedIDs(items)
  {
    forall i: nat, id
      ensures !CallsAt(items, i, id)
    {
      assert i < |items| ==> items[i] in items;
    }
  }

  // Translated contents pass the validator's whole message check exactly when their call
  // IDs are distinct and no model turn carries an image.
  lemma ValidExactly(system: seq<Message>, turns: seq<Turn>, requestID: string)
    requires SystemOnly(system) && turns != [] && TurnsToIR(system, turns, requestID).Some?
    ensures var messages := TurnsToIR(system, turns, requestID).value;
            ValidMessages(messages) <==> UniqueCalls(Items(messages)) && AllPictureFree(turns)
  {
    var messages := TurnsToIR(system, turns, requestID).value;
    TurnsValid(system, turns, requestID);
    TurnsShape(system, turns, requestID);
    TurnsMatched(system, turns, requestID);
    MatchedLinks(Items(messages));
    assert messages[|system|] in messages;
    assert SystemFirst(messages) by {
      forall i, j | 0 <= i < j < |messages| && messages[j].role == System
        ensures messages[i].role == System
      {
        assert messages[i] == messages[..|system|][i] && system[i] in system;
      }
    }
  }
}
