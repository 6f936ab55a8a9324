// When a Gemini request's contents are accepted.
module GeminiRequest {
  import opened Options
  import opened Text
  import opened IR
  import opened Gemini
  import opened GeminiMatching

  // A text and nothing else.
  predicate InstructionPart(part: Part) {
    HasOnly(part, true, false, false, false)
  }

  predicate InstructionOk(instruction: Option<Turn>) {
    instruction.Some? ==>
      && instruction.value.role in ["", "system"] && instruction.value.parts != []
      && forall part <- instruction.value.parts :: InstructionPart(part)
  }

  function SystemFor(instruction: Option<Turn>): seq<Message>
    requires InstructionOk(instruction)
  {
    if instruction.None? then []
    else
      var parts := instruction.value.parts;
      [Message(System, seq(|parts|, i requires 0 <= i < |parts| => assert parts[i] in parts; TextContent(parts[i].text.value)))]
  }

  lemma SystemIsText(instruction: Option<Turn>)
    requires InstructionOk(instruction)
    ensures SystemOnly(SystemFor(instruction))
  {
    var system := SystemFor(instruction);
    if instruction.Some? {
      assert Items(system) == Items([]) + system[0].content by {
        assert system[..0] == [];
      }
    }
  }

  // The messages of a request with a model, its system instruction and its contents; the
  // validator has the last word.
  method ToIRMessages(model: string, instruction: Option<Turn>, turns: seq<Turn>, requestID: string) returns (messages: Option<seq<Message>>)
    ensures messages.Some? <==>
            && !Blank(model) && turns != [] && InstructionOk(instruction)
            && TurnsToIR(SystemFor(instruction), turns, requestID).Some?
            && UniqueCalls(Items(TurnsToIR(SystemFor(instruction), turns, requestID).value)) && AllPictureFree(turns)
    ensures messages.Some? ==> messages == TurnsToIR(SystemFor(instruction), turns, requestID) && ValidMessages(messages.value)
  {
    TrimSpaceEmpties(model);
    if TrimSpace(model) == "" || turns == [] {
      return None;
    }
    var system: seq<Message> := [];
    if instruction.Some? {
      var parts := instruction.value.parts;
      if instruction.value.role !in ["", "system"] || parts == [] {
        return None;
      }
      var texts: seq<Content> := [];
      for i := 0 to |parts|
        invariant |texts| == i && forall k :: 0 <= k < i ==> InstructionPart(parts[k]) && texts[k] == TextContent(parts[k].text.value)
      {
        var part := parts[i];
        if VariantCount(part) != 1 || part.text.None? || part.thoughtSignature != "" || part.thought || part.videoMetadata.Present() {
          assert part in parts;
          return None;
        }
        texts := texts + [TextContent(parts[i].text.value)];
      }
      system := [Message(System, texts)];
      assert InstructionOk(instruction) by {
        assert forall part <- parts :: InstructionPart(part);
      }
      assert texts == SystemFor(instruction)[0].content;
    }
    assert system == SystemFor(instruction);
    SystemIsText(instruction);
    var done := TranslateTurns(system, turns, requestID);
    if done.None? {
      return None;
    }
    ValidExactly(system, turns, requestID);
    var valid := ValidateMessages(done.value);
    return if valid then done else None;
  }

  // ---- Generated call IDs ----

  // The number that decimal digits write.
  function Number(digits: string): int {
    if digits == [] then 0 else 10 * Number(digits[..|digits| - 1]) + digits[|digits| - 1] as int - '0' as int
  }

  // A number's digits write it, without leading zeros.
  lemma {:induction false} DecimalReads(n: nat)
    ensures Number(Decimal(n)) == n
    ensures |Decimal(n)| > 0 && (forall c <- Decimal(n) :: '0' <= c <= '9') && (Decimal(n)[0] == '0' ==> n == 0)
  {
    if n < 10 {
      assert Decimal(n)[..0] == [];
    } else {
      DecimalReads(n / 10);
      assert Decimal(n)[..|Decimal(n)| - 1] == Decimal(n / 10);
    }
  }

  function Generated(requestID: string, turn: nat, part: nat): string {
    requestID + "-call-" + Decimal(turn) + "-" + Decimal(part)
  }

  lemma DashedInjective(left: string, right: string, left': string, right': string)
    requires left + "-" + right == left' + "-" + right' && '-' !in left && '-' !in left'
    ensures left == left' && right == right'
  {
    var s := left + "-" + right;
    assert s[|left|] == '-' && s[|left'|] == '-';
    assert s[..|left|] == left && s[..|left'|] == left';
    assert s[|left| + 1..] == right;
  }

  lemma GeneratedInjective(requestID: string, m: nat, p: nat, m': nat, p': nat)
    requires Generated(requestID, m, p) == Generated(requestID, m', p')
    ensures m == m' && p == p'
  {
    var head := requestID + "-call-";
    var left, right := Decimal(m) + "-" + Decimal(p), Decimal(m') + "-" + Decimal(p');
    assert Generated(requestID, m, p) == head + left && Generated(requestID, m', p') == head + right;
    assert left == (head + left)[|head|..] && right == (head + right)[|head|..];
    DecimalReads(m);
    DecimalReads(m');
    DecimalReads(p);
    DecimalReads(p');
    DashedInjective(Decimal(m), Decimal(p), Decimal(m'), Decimal(p'));
  }

  predicate Before(a: nat, b: nat, m: nat, p: nat) {
    a < m || (a == m && b < p)
  }

  // Every call ID so far was generated at an earlier place.
  ghost predicate GeneratedSoFar(items: seq<Content>, requestID: string, m: nat, p: nat) {
    forall i: nat, id :: CallsAt(items, i, id) ==> exists a: nat, b: nat :: Before(a, b, m, p) && id == Generated(requestID, a, b)
  }

  predicate NoClientIDs(turn: Turn) {
    forall part <- turn.parts :: part.functionCall.Some? ==> part.functionCall.value.id == ""
  }

  lemma PartGenerated(part: Part, turn: Turn, before: seq<Content>, requestID: string, m: nat, p: nat)
    requires part in turn.parts && NoClientIDs(turn) && PartToIR(part, turn, before, requestID, m, p).Some?
    requires UniqueCalls(before) && GeneratedSoFar(before, requestID, m, p)
    ensures var all := before + [PartToIR(part, turn, before, requestID, m, p).value]; UniqueCalls(all) && GeneratedSoFar(all, requestID, m, p + 1)
  {
    var item := PartToIR(part, turn, before, requestID, m, p).value;
    var all, n := before + [item], |before|;
    forall i: nat, id | CallsAt(all, i, id)
      ensures exists a: nat, b: nat :: Before(a, b, m, p + 1) && id == Generated(requestID, a, b)
      ensures forall j: nat :: i < j ==> !CallsAt(all, j, id)
    {
      if i < n {
        assert CallsAt(before, i, id);
        var a: nat, b: nat :| Before(a, b, m, p) && id == Generated(requestID, a, b);
        assert Before(a, b, m, p + 1);
        forall j: nat | i < j
          ensures !CallsAt(all, j, id)
        {
          assert j < n ==> (CallsAt(all, j, id) <==> CallsAt(before, j, id));
          if item.kind == Call && id == Generated(requestID, m, p) {
            GeneratedInjective(requestID, a, b, m, p);
          }
        }
      } else {
        assert Before(m, p, m, p + 1) && id == Generated(requestID, m, p);
      }
    }
  }

  lemma {:induction false} PartsGenerated(turn: Turn, n: nat, before: seq<Content>, requestID: string, m: nat)
    requires n <= |turn.parts| && NoClientIDs(turn) && PartsToIR(turn, n, before, requestID, m).Some?
    requires UniqueCalls(before) && GeneratedSoFar(before, requestID, m, 0)
    ensures var all := before + PartsToIR(turn, n, before, requestID, m).value; UniqueCalls(all) && GeneratedSoFar(all, requestID, m, n)
  {
    hide PartToIR;
    hide UniqueCalls;
    hide GeneratedSoFar;
    if n == 0 {
      assert before + [] == before;
    } else {
      PartsGenerated(turn, n - 1, before, requestID, m);
      var init := PartsToIR(turn, n - 1, before, requestID, m).value;
      PartGenerated(turn.parts[n - 1], turn, before + init, requestID, m, n - 1);
      var item := PartToIR(turn.parts[n - 1], turn, before + init, requestID, m, n - 1).value;
      assert before + (init + [item]) == before + init + [item];
    }
  }

  lemma NextTurn(items: seq<Content>, requestID: string, m: nat, p: nat)
    requires GeneratedSoFar(items, requestID, m, p)
    ensures GeneratedSoFar(items, requestID, m + 1, 0)
  {
    forall i: nat, id | CallsAt(items, i, id)
      ensures exists a: nat, b: nat :: Before(a, b, m + 1, 0) && id == Generated(requestID, a, b)
    {
      var a: nat, b: nat :| Before(a, b, m, p) && id == Generated(requestID, a, b);
      assert Before(a, b, m + 1, 0);
    }
  }

  // When the client gives no call IDs, those generated are distinct, so the validator's
  // tool checks pass on every such request.
  lemma {:induction false} GeneratedIDsAreUnique(system: seq<Message>, turns: seq<Turn>, requestID: string)
    requires SystemOnly(system) && TurnsToIR(system, turns, requestID).Some? && forall turn <- turns :: NoClientIDs(turn)
    ensures var items := Items(TurnsToIR(system, turns, requestID).value);
            UniqueCalls(items) && Linked(items) && GeneratedSoFar(items, requestID, |turns|, 0)
  {
    hide TurnToIR;
    if turns == [] {
      forall i: nat, id
        ensures !CallsAt(Items(system), i, id)
      {
        assert i < |Items(system)| ==> Items(system)[i] in Items(system);
      }
    } else {
      var last := |turns| - 1;
      GeneratedIDsAreUnique(system, turns[..last], requestID);
      var init := TurnsToIR(system, turns[..last], requestID).value;
      TurnGenerated(turns[last], Items(init), requestID, last);
      var message := TurnToIR(turns[last], Items(init), requestID, last).value;
      assert (init + [message])[..|init|] == init;
    }
    TurnsMatched(system, turns, requestID);
    MatchedLinks(Items(TurnsToIR(system, turns, requestID).value));
  }

  lemma TurnGenerated(turn: Turn, before: seq<Content>, requestID: string, m: nat)
    requires NoClientIDs(turn) && TurnToIR(turn, before, requestID, m).Some? && UniqueCalls(before) && GeneratedSoFar(before, requestID, m, 0)
    ensures var all := before + TurnToIR(turn, before, requestID, m).value.content; UniqueCalls(all) && GeneratedSoFar(all, requestID, m + 1, 0)
  {
    PartsGenerated(turn, |turn.parts|, before, requestID, m);
    NextTurn(before + TurnToIR(turn, before, requestID, m).value.content, requestID, m, |turn.parts|);
  }
}
