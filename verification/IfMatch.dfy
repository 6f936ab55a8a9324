// The If-Match scanner: sections 8.8.3 and 13.1.1 of RFC 9110.
module IfMatch {
  import opened Options
  import Text

  newtype Byte = b: int | 0 <= b < 256

  type Bytes = seq<Byte>

  const HTAB: Byte := 0x09
  const SP: Byte := 0x20
  const DQUOTE: Byte := 0x22
  const STAR: Byte := 0x2A
  const COMMA: Byte := 0x2C
  const SLASH: Byte := 0x2F
  const LETTER_W: Byte := 0x57

  // The opaque tag with its quotes.
  datatype Tag = Tag(value: Bytes, weak: bool)

  datatype Header = Wildcard | Tags(tags: seq<Tag>)

  // ---- Trimming white space off a UTF-8 string ----

  predicate IsSpace(rune: Bytes) {
    match |rune|
    case 1 => 9 <= rune[0] <= 13 || rune[0] == SP
    case 2 => rune == [0xC2, 0x85] || rune == [0xC2, 0xA0]
    case 3 =>
      || rune == [0xE1, 0x9A, 0x80] || (rune[..2] == [0xE2, 0x80] && (0x80 <= rune[2] <= 0x8A || rune[2] in [0xA8, 0xA9, 0xAF]))
      || rune == [0xE2, 0x81, 0x9F] || rune == [0xE3, 0x80, 0x80]
    case _ => false
  }

  // The length of the white space the string starts, or ends, with; 0 for none.
  function SpaceFirst(s: Bytes): (n: nat)
    ensures n <= |s|
  {
    if |s| >= 1 && IsSpace(s[..1]) then 1 else if |s| >= 2 && IsSpace(s[..2]) then 2 else if |s| >= 3 && IsSpace(s[..3]) then 3 else 0
  }

  function SpaceLast(s: Bytes): (n: nat)
    ensures n <= |s|
  {
    if |s| >= 1 && IsSpace(s[|s| - 1..]) then 1
    else if |s| >= 2 && IsSpace(s[|s| - 2..]) then 2
    else if |s| >= 3 && IsSpace(s[|s| - 3..]) then 3
    else 0
  }

  function TrimLeft(s: Bytes): Bytes {
    if SpaceFirst(s) > 0 then TrimLeft(s[SpaceFirst(s)..]) else s
  }

  function TrimRight(s: Bytes): Bytes {
    if SpaceLast(s) > 0 then TrimRight(s[..|s| - SpaceLast(s)]) else s
  }

  function TrimSpace(s: Bytes): Bytes {
    TrimRight(TrimLeft(s))
  }

  // The UTF-8 form of a character.
  function Encoded(c: char): Bytes {
    var n := c as int;
    if n < 0x80 then [n as Byte]
    else if n < 0x800 then [(0xC0 + n / 0x40) as Byte, (0x80 + n % 0x40) as Byte]
    else if n < 0x1_0000 then [(0xE0 + n / 0x1000) as Byte, (0x80 + n / 0x40 % 0x40) as Byte, (0x80 + n % 0x40) as Byte]
    else [(0xF0 + n / 0x4_0000) as Byte, (0x80 + n / 0x1000 % 0x40) as Byte, (0x80 + n / 0x40 % 0x40) as Byte, (0x80 + n % 0x40) as Byte]
  }

  // Three bytes for which the character is the given one.
  lemma Decoded3(rune: Bytes, n: int)
    requires |rune| == 3 && 0xE0 <= rune[0] && 0x80 <= rune[1] < 0xC0 && 0x80 <= rune[2] < 0xC0 && 0x800 <= n < 0xD800
    requires n == (rune[0] as int - 0xE0) * 0x1000 + (rune[1] as int - 0x80) * 0x40 + (rune[2] as int - 0x80)
    ensures Encoded(n as char) == rune
  {
  }

  // The white space is that of Unicode.
  lemma SpaceExactly(rune: Bytes)
    ensures IsSpace(rune) <==> exists c :: Text.IsSpace(c) && Encoded(c) == rune
  {
    if IsSpace(rune) {
      var c := if |rune| == 1 then rune[0] as int else if |rune| == 2 then rune[1] as int
               else (rune[0] as int - 0xE0) * 0x1000 + (rune[1] as int - 0x80) * 0x40 + (rune[2] as int - 0x80);
      if |rune| == 3 {
        assert rune[0] == rune[..2][0] && rune[1] == rune[..2][1];
        Decoded3(rune, c);
      }
      assert Text.IsSpace(c as char) && Encoded(c as char) == rune;
    }
    forall c: char | Text.IsSpace(c)
      ensures IsSpace(Encoded(c))
    {
      SpaceEncoded(c);
    }
  }

  lemma SpaceEncoded(c: char)
    requires Text.IsSpace(c)
    ensures IsSpace(Encoded(c))
  {
    var rune := Encoded(c);
    if |rune| == 3 {
      assert rune[..2] == [rune[0], rune[1]];
    }
  }

  // Only white space.
  ghost predicate Spaces(s: Bytes) {
    s == [] || exists n :: 0 < n <= |s| && IsSpace(s[..n]) && Spaces(s[n..])
  }

  lemma {:induction false} SpacesJoin(left: Bytes, right: Bytes)
    requires Spaces(left) && Spaces(right)
    ensures Spaces(left + right)
  {
    hide IsSpace;
    var all := left + right;
    if left == [] {
      assert all == right;
    } else {
      var n :| 0 < n <= |left| && IsSpace(left[..n]) && Spaces(left[n..]);
      SpacesJoin(left[n..], right);
      assert all[..n] == left[..n] && all[n..] == left[n..] + right;
    }
  }

  lemma SpaceIsSpaces(s: Bytes)
    requires s == [] || IsSpace(s)
    ensures Spaces(s)
  {
    hide IsSpace;
    assert s[..|s|] == s && s[|s|..] == [];
  }

  lemma SpaceFirstIs(s: Bytes)
    ensures SpaceFirst(s) > 0 ==> IsSpace(s[..SpaceFirst(s)])
    ensures TrimLeft(s) == if SpaceFirst(s) > 0 then TrimLeft(s[SpaceFirst(s)..]) else s
  {
    hide IsSpace;
  }

  lemma {:induction false} TrimLeftStrips(s: Bytes)
    ensures exists left :: s == left + TrimLeft(s) && Spaces(left)
    ensures SpaceFirst(TrimLeft(s)) == 0
    decreases |s|
  {
    hide IsSpace;
    hide Spaces;
    hide SpaceFirst;
    hide TrimLeft;
    SpaceFirstIs(s);
    SpaceIsSpaces([]);
    var n := SpaceFirst(s);
    if n > 0 {
      var first, rest := s[..n], s[n..];
      TrimLeftStrips(rest);
      var left :| rest == left + TrimLeft(s) && Spaces(left);
      SpaceIsSpaces(first);
      SpacesJoin(first, left);
      assert s == first + rest;
      assert s == (first + left) + TrimLeft(s);
    } else {
      assert s == [] + TrimLeft(s);
    }
  }

  lemma SpaceLastIs(s: Bytes)
    ensures SpaceLast(s) > 0 ==> IsSpace(s[|s| - SpaceLast(s)..])
    ensures TrimRight(s) == if SpaceLast(s) > 0 then TrimRight(s[..|s| - SpaceLast(s)]) else s
  {
    hide IsSpace;
  }

  lemma {:induction false} TrimRightStrips(s: Bytes)
    ensures exists right :: s == TrimRight(s) + right && Spaces(right)
    ensures SpaceLast(TrimRight(s)) == 0
    decreases |s|
  {
    hide IsSpace;
    hide Spaces;
    hide SpaceLast;
    hide TrimRight;
    SpaceLastIs(s);
    SpaceIsSpaces([]);
    var n := SpaceLast(s);
    if n > 0 {
      var init, last := s[..|s| - n], s[|s| - n..];
      TrimRightStrips(init);
      var right :| init == TrimRight(s) + right && Spaces(right);
      SpaceIsSpaces(last);
      SpacesJoin(right, last);
      assert s == init + last;
      assert s == TrimRight(s) + (right + last);
    } else {
      assert s == TrimRight(s) + [];
    }
  }

  lemma SpaceLength(rune: Bytes)
    ensures IsSpace(rune) ==> 1 <= |rune| <= 3
  {
  }

  lemma NoSpaceAt(s: Bytes, n: nat)
    requires n <= |s|
    ensures IsSpace(s[..n]) ==> SpaceFirst(s) > 0
    ensures IsSpace(s[n..]) ==> SpaceLast(s) > 0
  {
    hide IsSpace;
    SpaceLength(s[..n]);
    SpaceLength(s[n..]);
  }

  // Trimming takes white space off both ends, and leaves none there.
  lemma TrimSpaceStrips(s: Bytes)
    ensures exists left, right :: s == left + TrimSpace(s) + right && Spaces(left) && Spaces(right)
    ensures forall n :: 0 < n <= |TrimSpace(s)| ==> !IsSpace(TrimSpace(s)[..n])
    ensures forall n :: 0 <= n < |TrimSpace(s)| ==> !IsSpace(TrimSpace(s)[n..])
  {
    hide IsSpace;
    hide Spaces;
    hide TrimLeft;
    hide TrimRight;
    hide SpaceFirst;
    hide SpaceLast;
    TrimLeftStrips(s);
    TrimRightStrips(TrimLeft(s));
    var left :| s == left + TrimLeft(s) && Spaces(left);
    var right :| TrimLeft(s) == TrimSpace(s) + right && Spaces(right);
    var trimmed := TrimSpace(s);
    assert s == left + trimmed + right;
    forall n | 0 < n <= |trimmed|
      ensures !IsSpace(trimmed[..n])
    {
      assert trimmed[..n] == TrimLeft(s)[..n];
      NoSpaceAt(TrimLeft(s), n);
    }
    forall n | 0 <= n < |trimmed|
      ensures !IsSpace(trimmed[n..])
    {
      NoSpaceAt(trimmed, n);
    }
  }

  // ---- The grammar: what a list of entity tags is printed as ----

  predicate IsOWS(b: Byte) {
    b == 0x20 || b == 0x09
  }

  predicate AllOWS(s: Bytes) {
    forall b <- s :: IsOWS(b)
  }

  // %x21 / %x23-7E / obs-text
  predicate IsEtagc(b: Byte) {
    b == 0x21 || 0x23 <= b <= 0x7E || b >= 0x80
  }

  predicate ValidTag(tag: Tag) {
    && |tag.value| >= 2 && tag.value[0] == 0x22 && tag.value[|tag.value| - 1] == 0x22
    && forall b <- tag.value[1..|tag.value| - 1] :: IsEtagc(b)
  }

  // A tag with the optional white space around it.
  datatype Item = Item(before: Bytes, tag: Tag, after: Bytes) {
    predicate Valid() {
      AllOWS(before) && ValidTag(tag) && AllOWS(after)
    }

    function Text(): Bytes {
      before + TagText(tag) + after
    }
  }

  function TagText(tag: Tag): Bytes {
    (if tag.weak then [0x57, 0x2F] else []) + tag.value
  }

  predicate ValidItems(items: seq<Item>) {
    |items| > 0 && forall item <- items :: item.Valid()
  }

  function Print(items: seq<Item>): Bytes {
    if items == [] then []
    else if |items| == 1 then items[0].Text()
    else items[0].Text() + [0x2C] + Print(items[1..])
  }

  function TagsOf(items: seq<Item>): seq<Tag> {
    seq(|items|, i requires 0 <= i < |items| => items[i].tag)
  }

  // ---- What the scanner reads ----

  function SpanOWS(s: Bytes): (n: nat)
    ensures n <= |s|
  {
    if s != [] && IsOWS(s[0]) then 1 + SpanOWS(s[1..]) else 0
  }

  function SpanEtagc(s: Bytes): (n: nat)
    ensures n <= |s|
  {
    if s != [] && IsEtagc(s[0]) then 1 + SpanEtagc(s[1..]) else 0
  }

  predicate StartsWeak(s: Bytes) {
    |s| >= 2 && s[0] == LETTER_W && s[1] == SLASH
  }

  // A quoted tag at the start of the string.
  function QuotedLength(s: Bytes): (n: Option<nat>)
    ensures n.Some? ==> 2 <= n.value <= |s|
  {
    if s == [] || s[0] != DQUOTE then None
    else
      var n := SpanEtagc(s[1..]);
      if 1 + n < |s| && s[1 + n] == DQUOTE then Some(n + 2) else None
  }

  // An entity tag at the start of the string and what follows it.
  function TakeTag(s: Bytes): (taken: Option<(Tag, Bytes)>)
    ensures taken.Some? ==> |taken.value.1| < |s|
  {
    var weak := StartsWeak(s);
    var quoted := if weak then s[2..] else s;
    var n := QuotedLength(quoted);
    if n.None? then None else Some((Tag(quoted[..n.value], weak), quoted[n.value..]))
  }

  // The first item of a list and what follows it.
  function FirstItem(s: Bytes): (first: Option<(Item, Bytes)>)
    ensures first.Some? ==> |first.value.1| < |s|
  {
    var taken := TakeTag(s[SpanOWS(s)..]);
    if taken.None? then None
    else
      var (tag, rest) := taken.value;
      Some((Item(s[..SpanOWS(s)], tag, rest[..SpanOWS(rest)]), rest[SpanOWS(rest)..]))
  }

  function Parse(s: Bytes): Option<seq<Item>>
    decreases |s|
  {
    var first := FirstItem(s);
    if first.None? then None
    else
      var (item, rest) := first.value;
      if rest == [] then Some([item])
      else if rest[0] != COMMA then None
      else
        var more := Parse(rest[1..]);
        if more.None? then None else Some([item] + more.value)
  }

  function ParseHeader(value: Bytes): Option<Header> {
    var trimmed := TrimSpace(value);
    if trimmed == [STAR] then Some(Wildcard)
    else if Parse(trimmed).Some? then Some(Tags(TagsOf(Parse(trimmed).value)))
    else None
  }

  // ---- Printing and parsing are inverse ----

  lemma {:induction false} SpanOWSOf(ows: Bytes, rest: Bytes)
    requires AllOWS(ows) && (rest == [] || !IsOWS(rest[0]))
    ensures SpanOWS(ows + rest) == |ows|
  {
    if ows == [] {
      assert ows + rest == rest;
    } else {
      assert (ows + rest)[1..] == ows[1..] + rest;
      SpanOWSOf(ows[1..], rest);
    }
  }

  lemma {:induction false} SpanEtagcOf(tag: Bytes, rest: Bytes)
    requires (forall b <- tag :: IsEtagc(b)) && rest != [] && !IsEtagc(rest[0])
    ensures SpanEtagc(tag + rest) == |tag|
  {
    if tag == [] {
      assert tag + rest == rest;
    } else {
      assert (tag + rest)[1..] == tag[1..] + rest;
      SpanEtagcOf(tag[1..], rest);
    }
  }

  lemma {:induction false} SpanOWSStops(s: Bytes)
    ensures AllOWS(s[..SpanOWS(s)]) && (SpanOWS(s) < |s| ==> !IsOWS(s[SpanOWS(s)]))
  {
    if s != [] && IsOWS(s[0]) {
      SpanOWSStops(s[1..]);
      assert s[..SpanOWS(s)] == [s[0]] + s[1..][..SpanOWS(s[1..])];
    }
  }

  lemma {:induction false} SpanEtagcStops(s: Bytes)
    ensures forall b <- s[..SpanEtagc(s)] :: IsEtagc(b)
  {
    if s != [] && IsEtagc(s[0]) {
      SpanEtagcStops(s[1..]);
      assert s[..SpanEtagc(s)] == [s[0]] + s[1..][..SpanEtagc(s[1..])];
    }
  }

  lemma QuotedOf(tag: Tag, rest: Bytes)
    requires ValidTag(tag)
    ensures QuotedLength(tag.value + rest) == Some(|tag.value|)
  {
    var s, inner := tag.value + rest, tag.value[1..|tag.value| - 1];
    assert s[1..] == inner + ([DQUOTE] + rest);
    SpanEtagcOf(inner, [DQUOTE] + rest);
  }

  lemma TakeTagOf(tag: Tag, rest: Bytes)
    requires ValidTag(tag)
    ensures TakeTag(TagText(tag) + rest) == Some((tag, rest))
    ensures !IsOWS((TagText(tag) + rest)[0])
  {
    var s, quoted := TagText(tag) + rest, tag.value + rest;
    QuotedOf(tag, rest);
    assert quoted[..|tag.value|] == tag.value && quoted[|tag.value|..] == rest;
    if tag.weak {
      assert s[2..] == quoted;
    } else {
      assert s == quoted;
    }
  }

  lemma FirstItemOf(item: Item, rest: Bytes)
    requires item.Valid() && (rest == [] || rest[0] == COMMA)
    ensures FirstItem(item.Text() + rest) == Some((item, rest))
  {
    var s, tail := item.Text() + rest, item.after + rest;
    var text := TagText(item.tag) + tail;
    assert s == item.before + text;
    TakeTagOf(item.tag, tail);
    SpanOWSOf(item.before, text);
    assert s[..|item.before|] == item.before && s[|item.before|..] == text;
    SpanOWSOf(item.after, rest);
    assert tail[..|item.after|] == item.after && tail[|item.after|..] == rest;
  }

  lemma ParseFirst(s: Bytes, item: Item, rest: Bytes)
    requires FirstItem(s) == Some((item, rest))
    ensures |rest| < |s|
    ensures Parse(s) == if rest == [] then Some([item])
                        else if rest[0] != COMMA || Parse(rest[1..]).None? then None
                        else Some([item] + Parse(rest[1..]).value)
  {
  }

  // Any list of tags, printed with any white space around its commas, is read back.
  lemma {:induction false} ParsePrint(items: seq<Item>)
    requires ValidItems(items)
    ensures Parse(Print(items)) == Some(items)
  {
    hide FirstItem;
    hide Item.Text;
    assert items[0].Valid();
    if |items| == 1 {
      FirstItemOf(items[0], []);
      assert items[0].Text() + [] == Print(items);
      ParseFirst(Print(items), items[0], []);
      assert items == [items[0]];
    } else {
      var rest := [COMMA] + Print(items[1..]);
      FirstItemOf(items[0], rest);
      assert Print(items) == items[0].Text() + rest;
      assert rest[1..] == Print(items[1..]);
      ParseFirst(Print(items), items[0], rest);
      ParsePrint(items[1..]);
      assert items == [items[0]] + items[1..];
    }
  }

  lemma QuotedPrints(s: Bytes, weak: bool)
    requires QuotedLength(s).Some?
    ensures ValidTag(Tag(s[..QuotedLength(s).value], weak))
  {
    var n := QuotedLength(s).value;
    SpanEtagcStops(s[1..]);
    assert s[..n][1..n - 1] == s[1..][..SpanEtagc(s[1..])];
  }

  lemma TakeTagPrints(s: Bytes)
    requires TakeTag(s).Some?
    ensures ValidTag(TakeTag(s).value.0) && s == TagText(TakeTag(s).value.0) + TakeTag(s).value.1
  {
    hide QuotedLength;
    hide ValidTag;
    var weak := StartsWeak(s);
    var quoted := if weak then s[2..] else s;
    QuotedPrints(quoted, weak);
    var n := QuotedLength(quoted).value;
    assert quoted == quoted[..n] + quoted[n..];
    if weak {
      assert s == [LETTER_W, SLASH] + quoted;
      assert s == [LETTER_W, SLASH] + quoted[..n] + quoted[n..];
    } else {
      assert [] + quoted[..n] == quoted[..n];
    }
  }

  lemma Joined(s: Bytes, before: Bytes, text: Bytes, after: Bytes, rest: Bytes, middle: Bytes, tail: Bytes)
    requires s == before + middle && middle == text + tail && tail == after + rest
    ensures s == before + text + after + rest
  {
  }

  lemma FirstItemPrints(s: Bytes)
    requires FirstItem(s).Some?
    ensures FirstItem(s).value.0.Valid() && s == FirstItem(s).value.0.Text() + FirstItem(s).value.1
  {
    hide TakeTag;
    hide TagText;
    hide ValidTag;
    var before := SpanOWS(s);
    SpanOWSStops(s);
    TakeTagPrints(s[before..]);
    var (tag, tail) := TakeTag(s[before..]).value;
    SpanOWSStops(tail);
    var after := SpanOWS(tail);
    Joined(s, s[..before], TagText(tag), tail[..after], tail[after..], s[before..], tail);
  }

  // Whatever is read consists of valid tags and prints as exactly the text read.
  lemma {:induction false} PrintParse(s: Bytes)
    requires Parse(s).Some?
    ensures ValidItems(Parse(s).value) && Print(Parse(s).value) == s
    decreases |s|
  {
    hide FirstItem;
    hide Item.Text;
    FirstItemPrints(s);
    var (item, rest) := FirstItem(s).value;
    ParseFirst(s, item, rest);
    if rest != [] {
      PrintParse(rest[1..]);
      PrintMore(item, Parse(rest[1..]).value);
      assert rest == [COMMA] + rest[1..];
      assert s == item.Text() + [COMMA] + rest[1..];
    } else {
      assert item.Text() + [] == item.Text();
    }
  }

  lemma PrintMore(item: Item, more: seq<Item>)
    requires item.Valid() && ValidItems(more)
    ensures ValidItems([item] + more) && Print([item] + more) == item.Text() + [COMMA] + Print(more)
  {
    assert ([item] + more)[1..] == more;
  }

  // ---- The header as a whole ----

  lemma SpaceEnds(rune: Bytes)
    ensures IsSpace(rune) ==> rune[0] !in [DQUOTE, LETTER_W] && rune[|rune| - 1] != DQUOTE
  {
    assert |rune| == 3 ==> rune[..2][0] == rune[0];
  }

  lemma NoSpaceFirst(s: Bytes)
    requires s != [] && s[0] in [DQUOTE, LETTER_W]
    ensures SpaceFirst(s) == 0
  {
    hide IsSpace;
    SpaceEnds(s[..1]);
    if |s| >= 2 {
      SpaceEnds(s[..2]);
    }
    if |s| >= 3 {
      SpaceEnds(s[..3]);
    }
  }

  lemma NoSpaceLast(s: Bytes)
    requires s != [] && s[|s| - 1] == DQUOTE
    ensures SpaceLast(s) == 0
  {
    hide IsSpace;
    SpaceLastIs(s);
    var n := SpaceLast(s);
    hide SpaceLast;
    hide TrimRight;
    if n > 0 {
      var rune := s[|s| - n..];
      assert rune[|rune| - 1] == s[|s| - 1];
      SpaceEnds(rune);
    }
  }

  lemma SpaceByte(b: Byte)
    ensures IsOWS(b) ==> IsSpace([b])
  {
  }

  lemma {:induction false} TrimLeftOf(ows: Bytes, rest: Bytes)
    requires AllOWS(ows) && rest != [] && (rest[0] == DQUOTE || rest[0] == LETTER_W)
    ensures TrimLeft(ows + rest) == rest
  {
    if ows == [] {
      NoSpaceFirst(rest);
      assert ows + rest == rest;
    } else {
      assert (ows + rest)[..1] == [ows[0]] && (ows + rest)[1..] == ows[1..] + rest;
      SpaceByte(ows[0]);
      TrimLeftOf(ows[1..], rest);
    }
  }

  lemma TrimRightStep(s: Bytes)
    requires s != [] && IsSpace(s[|s| - 1..])
    ensures TrimRight(s) == TrimRight(s[..|s| - 1])
  {
  }

  lemma {:induction false} TrimRightOf(rest: Bytes, ows: Bytes)
    requires AllOWS(ows) && rest != [] && rest[|rest| - 1] == DQUOTE
    ensures TrimRight(rest + ows) == rest
  {
    hide IsSpace;
    var s := rest + ows;
    if ows == [] {
      NoSpaceLast(rest);
      assert s == rest;
    } else {
      var init := ows[..|ows| - 1];
      assert s[|s| - 1..] == [ows[|ows| - 1]] && s[..|s| - 1] == rest + init;
      SpaceByte(ows[|ows| - 1]);
      TrimRightStep(s);
      TrimRightOf(rest, init);
    }
  }

  lemma PrintFirst(items: seq<Item>)
    requires ValidItems(items)
    ensures Print(items) == items[0].before + Print(items[0 := items[0].(before := [])])
    ensures items[0].before == [] ==> Print(items) != [] && (Print(items)[0] == DQUOTE || Print(items)[0] == LETTER_W)
  {
    var stripped := items[0 := items[0].(before := [])];
    assert items[0].Valid();
    assert items[0].Text() == items[0].before + stripped[0].Text();
    assert stripped[1..] == items[1..];
    assert stripped[0].Text()[0] == TagText(items[0].tag)[0];
  }

  lemma {:induction false} PrintLast(items: seq<Item>)
    requires ValidItems(items)
    ensures var n := |items| - 1;
            Print(items) == Print(items[n := items[n].(after := [])]) + items[n].after
    ensures items[|items| - 1].after == [] ==> Print(items) != [] && Print(items)[|Print(items)| - 1] == DQUOTE
  {
    var n := |items| - 1;
    var stripped := items[n := items[n].(after := [])];
    assert items[n].Valid();
    if n == 0 {
      assert items[0].Text() == stripped[0].Text() + items[0].after;
      assert stripped[0].Text()[|stripped[0].Text()| - 1] == items[0].tag.value[|items[0].tag.value| - 1];
    } else {
      PrintLast(items[1..]);
      assert stripped[1..] == items[1..][n - 1 := items[n].(after := [])];
    }
  }

  // The list without the white space at its two ends.
  function Stripped(items: seq<Item>): seq<Item>
    requires items != []
  {
    var first, last := items[0 := items[0].(before := [])], |items| - 1;
    first[last := first[last].(after := [])]
  }

  lemma StrippedValid(items: seq<Item>)
    requires ValidItems(items)
    ensures ValidItems(items[0 := items[0].(before := [])]) && ValidItems(Stripped(items)) && TagsOf(Stripped(items)) == TagsOf(items)
    ensures Stripped(items)[0].before == [] && Stripped(items)[|items| - 1].after == []
  {
    hide ValidTag;
    assert forall i :: 0 <= i < |items| ==> items[i].Valid();
  }

  lemma TrimPrint(items: seq<Item>)
    requires ValidItems(items)
    ensures TrimSpace(Print(items)) == Print(Stripped(items)) && Print(Stripped(items)) != [STAR]
    ensures ValidItems(Stripped(items)) && TagsOf(Stripped(items)) == TagsOf(items)
  {
    hide Item.Text;
    hide ValidTag;
    var first, last := items[0 := items[0].(before := [])], |items| - 1;
    StrippedValid(items);
    PrintFirst(items);
    PrintFirst(first);
    PrintLast(first);
    PrintLast(Stripped(items));
    PrintFirst(Stripped(items));
    assert items[0].Valid() && first[last].Valid();
    TrimLeftOf(items[0].before, Print(first));
    TrimRightOf(Print(Stripped(items)), first[last].after);
  }

  // Every non-empty list of entity tags is read back as exactly its tags, in order,
  // however its commas and its ends are spaced.
  lemma ListsAreRead(items: seq<Item>)
    requires ValidItems(items)
    ensures ParseHeader(Print(items)) == Some(Tags(TagsOf(items)))
  {
    TrimPrint(items);
    ParsePrint(Stripped(items));
  }

  lemma NoStar()
    ensures Parse([STAR]).None?
  {
    assert SpanOWS([STAR]) == 0 && [STAR][0..] == [STAR];
    assert TakeTag([STAR]).None?;
  }

  // A header is read as a list exactly when, trimmed, it is one of the RFC's lists of
  // entity tags, and as the wildcard exactly when it is a star.
  lemma HeadersExactly(value: Bytes, tags: seq<Tag>)
    ensures ParseHeader(value) == Some(Wildcard) <==> TrimSpace(value) == [0x2A]
    ensures ParseHeader(value) == Some(Tags(tags))
       <==> exists items :: ValidItems(items) && TagsOf(items) == tags && Print(items) == TrimSpace(value)
  {
    var trimmed := TrimSpace(value);
    forall items | ValidItems(items) && Print(items) == trimmed
      ensures trimmed != [STAR] && Parse(trimmed) == Some(items)
    {
      ParsePrint(items);
      NoStar();
    }
    if Parse(trimmed).Some? {
      PrintParse(trimmed);
    }
  }

  // ---- The code ----

  lemma SpanStep(s: Bytes, i: nat)
    requires i < |s|
    ensures s[i..][0] == s[i] && s[i..][1..] == s[i + 1..]
    ensures IsOWS(s[i]) ==> SpanOWS(s[i..]) == 1 + SpanOWS(s[i + 1..])
    ensures !IsOWS(s[i]) ==> SpanOWS(s[i..]) == 0
    ensures IsEtagc(s[i]) ==> SpanEtagc(s[i..]) == 1 + SpanEtagc(s[i + 1..])
    ensures !IsEtagc(s[i]) ==> SpanEtagc(s[i..]) == 0
  {
  }

  method SkipOWS(value: Bytes, start: nat) returns (offset: nat)
    requires start <= |value|
    ensures offset == start + SpanOWS(value[start..])
  {
    offset := start;
    while offset < |value| && (value[offset] == SP || value[offset] == HTAB)
      invariant start <= offset <= |value|
      invariant offset + SpanOWS(value[offset..]) == start + SpanOWS(value[start..])
    {
      SpanStep(value, offset);
      offset := offset + 1;
    }
    if offset < |value| {
      SpanStep(value, offset);
    }
  }

  // Scans one quoted tag and returns where it ends.
  method ScanQuoted(value: Bytes, start: nat) returns (end: Option<nat>)
    requires start <= |value|
    ensures QuotedLength(value[start..]).None? ==> end.None?
    ensures QuotedLength(value[start..]).Some? ==> end == Some(start + QuotedLength(value[start..]).value)
  {
    if start >= |value| || value[start] != DQUOTE {
      return None;
    }
    var offset := start + 1;
    assert value[start..][1..] == value[start + 1..];
    while offset < |value| && value[offset] != DQUOTE
      invariant start < offset <= |value|
      invariant offset + SpanEtagc(value[offset..]) == start + 1 + SpanEtagc(value[start + 1..])
    {
      SpanStep(value, offset);
      var character := value[offset];
      if character != 0x21 && (character < 0x23 || character > 0x7e) && character < 0x80 {
        assert value[start..][1 + SpanEtagc(value[start + 1..])] == value[offset];
        return None;
      }
      offset := offset + 1;
    }
    if offset >= |value| {
      return None;
    }
    SpanStep(value, offset);
    assert value[start..][offset - start] == value[offset];
    return Some(offset + 1);
  }

  ghost function ReadTags(s: Bytes): Option<seq<Tag>> {
    if Parse(s).None? then None else Some(TagsOf(Parse(s).value))
  }

  ghost function After(tags: seq<Tag>, rest: Option<seq<Tag>>): Option<seq<Tag>> {
    if rest.None? then None else Some(tags + rest.value)
  }

  lemma ReadNext(s: Bytes)
    requires FirstItem(s).Some?
    ensures var (item, rest) := FirstItem(s).value;
            ReadTags(s) == if rest == [] then Some([item.tag]) else if rest[0] != COMMA then None else After([item.tag], ReadTags(rest[1..]))
  {
    hide FirstItem;
    var (item, rest) := FirstItem(s).value;
    ParseFirst(s, item, rest);
    if rest == [] {
      assert TagsOf([item]) == [item.tag];
    } else if rest[0] == COMMA && Parse(rest[1..]).Some? {
      var more := Parse(rest[1..]).value;
      assert TagsOf([item] + more) == [item.tag] + TagsOf(more);
    }
  }

  lemma AfterTwice(tags: seq<Tag>, tag: Tag, rest: Option<seq<Tag>>)
    ensures After(tags, After([tag], rest)) == After(tags + [tag], rest)
    ensures After(tags, Some([tag])) == Some(tags + [tag])
  {
    if rest.Some? {
      assert tags + ([tag] + rest.value) == tags + [tag] + rest.value;
    }
  }

  // An entity tag, and where the scan has got to after it.
  method ScanTag(value: Bytes, start: nat) returns (scanned: Option<(Tag, nat)>)
    requires start <= |value|
    ensures TakeTag(value[start..]).None? ==> scanned.None?
    ensures TakeTag(value[start..]).Some? ==>
              && scanned.Some? && start < scanned.value.1 <= |value|
              && TakeTag(value[start..]) == Some((scanned.value.0, value[scanned.value.1..]))
  {
    ghost var text := value[start..];
    var offset := start;
    var weak := offset + 2 <= |value| && value[offset..offset + 2] == [LETTER_W, SLASH];
    assert weak <==> StartsWeak(text) by {
      if offset + 2 <= |value| {
        assert value[offset..offset + 2] == [value[offset], value[offset + 1]] == [text[0], text[1]];
      }
    }
    if weak {
      offset := offset + 2;
    }
    assert (if weak then text[2..] else text) == value[offset..];
    var end := ScanQuoted(value, offset);
    if end.None? {
      return None;
    }
    assert value[offset..][..end.value - offset] == value[offset..end.value];
    assert value[offset..][end.value - offset..] == value[end.value..];
    return Some((Tag(value[offset..end.value], weak), end.value));
  }

  // The same with the white space around the tag.
  method ScanItem(value: Bytes, start: nat) returns (scanned: Option<(Tag, nat)>)
    requires start <= |value|
    ensures FirstItem(value[start..]).None? ==> scanned.None?
    ensures FirstItem(value[start..]).Some? ==>
              && scanned.Some? && start < scanned.value.1 <= |value|
              && scanned.value.0 == FirstItem(value[start..]).value.0.tag && value[scanned.value.1..] == FirstItem(value[start..]).value.1
  {
    hide TakeTag;
    ghost var s := value[start..];
    var offset := SkipOWS(value, start);
    assert s[SpanOWS(s)..] == value[offset..];
    var tag := ScanTag(value, offset);
    if tag.None? {
      return None;
    }
    var end := tag.value.1;
    var next := SkipOWS(value, end);
    assert value[end..][next - end..] == value[next..];
    return Some((tag.value.0, next));
  }

  method ParseIfMatch(header: Bytes) returns (parsed: Option<Header>)
    ensures parsed == ParseHeader(header)
  {
    hide FirstItem;
    var value := TrimSpace(header);
    if value == [] {
      return None;
    }
    if value == [STAR] {
      return Some(Wildcard);
    }
    var tags: seq<Tag>, offset := [], 0;
    assert value[0..] == value;
    assert After([], ReadTags(value)) == ReadTags(value) by {
      if Parse(value).Some? {
        assert [] + TagsOf(Parse(value).value) == TagsOf(Parse(value).value);
      }
    }
    while offset < |value|
      invariant offset <= |value|
      invariant ReadTags(value) == After(tags, ReadTags(value[offset..]))
    {
      var scanned := ScanItem(value, offset);
      if scanned.None? {
        return None;
      }
      ReadNext(value[offset..]);
      var (tag, next) := scanned.value;
      if next == |value| {
        AfterTwice(tags, tag, None);
        return Some(Tags(tags + [tag]));
      }
      if value[next] != COMMA {
        return None;
      }
      assert value[next..][1..] == value[next + 1..];
      AfterTwice(tags, tag, ReadTags(value[next + 1..]));
      tags := tags + [tag];
      offset := next + 1;
      if offset == |value| {
        return None;
      }
    }
    return None;
  }

  datatype Outcome = Accepted | Malformed | Changed

  // An absent header, the star, or a strong tag equal to the current one lets the update
  // through; a weak tag never does (section 8.8.3.2 of RFC 9110).
  method EnforceIfMatch(header: Bytes, current: Bytes) returns (outcome: Outcome)
    ensures outcome == Accepted <==>
            || header == [] || TrimSpace(header) == [0x2A]
            || exists items :: ValidItems(items) && Print(items) == TrimSpace(header) && Tag(current, false) in TagsOf(items)
    ensures outcome == Malformed <==>
            header != [] && TrimSpace(header) != [0x2A] && !exists items :: ValidItems(items) && Print(items) == TrimSpace(header)
  {
    hide *;
    if header == [] {
      return Accepted;
    }
    var parsed := ParseIfMatch(header);
    if parsed.None? {
      NoList(header);
      return Malformed;
    }
    HeadersExactly(header, []);
    if parsed.value.Wildcard? {
      return Accepted;
    }
    var tags := parsed.value.tags;
    HeadersExactly(header, tags);
    OneList(header, tags);
    for i := 0 to |tags|
      invariant Tag(current, false) !in tags[..i]
    {
      if !tags[i].weak && tags[i].value == current {
        assert tags[i] == Tag(current, false);
        return Accepted;
      }
      assert tags[..i + 1] == tags[..i] + [tags[i]];
    }
    assert tags[..|tags|] == tags;
    return Changed;
  }

  lemma NoList(header: Bytes)
    requires ParseHeader(header).None?
    ensures TrimSpace(header) != [0x2A] && !exists items :: ValidItems(items) && Print(items) == TrimSpace(header)
  {
    forall items | ValidItems(items) && Print(items) == TrimSpace(header)
      ensures false
    {
      ParsePrint(items);
    }
  }

  lemma OneList(header: Bytes, tags: seq<Tag>)
    requires ParseHeader(header) == Some(Tags(tags))
    ensures forall items :: ValidItems(items) && Print(items) == TrimSpace(header) ==> TagsOf(items) == tags
    ensures exists items :: ValidItems(items) && Print(items) == TrimSpace(header) && TagsOf(items) == tags
  {
    forall items | ValidItems(items) && Print(items) == TrimSpace(header)
      ensures TagsOf(items) == tags
    {
      ParsePrint(items);
    }
    HeadersExactly(header, tags);
  }
}
