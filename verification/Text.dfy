// Trimming white space from text, as Unicode defines it.
module Text {
  predicate IsSpace(c: char) {
    || '\t' <= c <= '\r' || c == ' ' || c == '\U{85}' || c == '\U{A0}' || c == '\U{1680}' || '\U{2000}' <= c <= '\U{200a}'
    || c == '\U{2028}' || c == '\U{2029}' || c == '\U{202f}' || c == '\U{205f}' || c == '\U{3000}'
  }

  function TrimLeft(s: string): string {
    if s != [] && IsSpace(s[0]) then TrimLeft(s[1..]) else s
  }

  function TrimRight(s: string): string {
    if s != [] && IsSpace(s[|s| - 1]) then TrimRight(s[..|s| - 1]) else s
  }

  function TrimSpace(s: string): string {
    TrimRight(TrimLeft(s))
  }

  // No white space at either end.
  predicate Trimmed(s: string) {
    s == [] || (!IsSpace(s[0]) && !IsSpace(s[|s| - 1]))
  }

  lemma {:induction false} TrimLeftSuffix(s: string)
    ensures |TrimLeft(s)| <= |s| && (TrimLeft(s) == s <==> s == [] || !IsSpace(s[0]))
    ensures TrimLeft(s) == [] || !IsSpace(TrimLeft(s)[0])
  {
    if s != [] && IsSpace(s[0]) {
      TrimLeftSuffix(s[1..]);
    }
  }

  lemma {:induction false} TrimRightPrefix(s: string)
    ensures TrimRight(s) <= s && (TrimRight(s) == s <==> s == [] || !IsSpace(s[|s| - 1]))
    ensures TrimRight(s) == [] || !IsSpace(TrimRight(s)[|TrimRight(s)| - 1])
  {
    if s != [] && IsSpace(s[|s| - 1]) {
      TrimRightPrefix(s[..|s| - 1]);
    }
  }

  // Trimming leaves exactly the trimmed strings as they are, and always yields one.
  lemma TrimSpaceFixes(s: string)
    ensures TrimSpace(s) == s <==> Trimmed(s)
    ensures Trimmed(TrimSpace(s))
  {
    TrimLeftSuffix(s);
    TrimRightPrefix(TrimLeft(s));
    TrimRightPrefix(s);
  }

  // Trimming leaves nothing exactly when there is nothing but white space.
  lemma TrimSpaceEmpties(s: string)
    ensures TrimSpace(s) == "" <==> Blank(s)
  {
    TrimLeftEmpties(s);
    TrimLeftSuffix(s);
    TrimRightPrefix(TrimLeft(s));
    if TrimLeft(s) != [] {
      TrimRightKeeps(TrimLeft(s));
    }
  }

  predicate Blank(s: string) {
    forall c <- s :: IsSpace(c)
  }

  lemma {:induction false} TrimLeftEmpties(s: string)
    ensures TrimLeft(s) == "" <==> Blank(s)
  {
    if s != [] {
      assert s == [s[0]] + s[1..];
      if IsSpace(s[0]) {
        TrimLeftEmpties(s[1..]);
      }
    }
  }

  lemma {:induction false} TrimRightKeeps(s: string)
    requires s != [] && !IsSpace(s[0])
    ensures TrimRight(s) != []
  {
    if IsSpace(s[|s| - 1]) {
      TrimRightKeeps(s[..|s| - 1]);
    }
  }

  // Nothing but white space goes.
  lemma TrimSpaceStrips(s: string)
    ensures exists left, right :: s == left + TrimSpace(s) + right && Blank(left) && Blank(right)
  {
    TrimLeftStrips(s);
    TrimRightStrips(TrimLeft(s));
    var left :| s == left + TrimLeft(s) && Blank(left);
    var right :| TrimLeft(s) == TrimSpace(s) + right && Blank(right);
    assert s == left + TrimSpace(s) + right;
  }

  lemma {:induction false} TrimLeftStrips(s: string)
    ensures exists left :: s == left + TrimLeft(s) && Blank(left)
  {
    if s != [] && IsSpace(s[0]) {
      TrimLeftStrips(s[1..]);
      var left :| s[1..] == left + TrimLeft(s) && Blank(left);
      assert s == ([s[0]] + left) + TrimLeft(s);
    } else {
      assert s == "" + TrimLeft(s);
    }
  }

  lemma {:induction false} TrimRightStrips(s: string)
    ensures exists right :: s == TrimRight(s) + right && Blank(right)
  {
    if s != [] && IsSpace(s[|s| - 1]) {
      var n := |s| - 1;
      TrimRightStrips(s[..n]);
      var right :| s[..n] == TrimRight(s) + right && Blank(right);
      assert s == TrimRight(s) + (right + [s[n]]);
    } else {
      assert s == TrimRight(s) + "";
    }
  }
}
