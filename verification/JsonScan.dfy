/** The brace scanner of the draft reader walks over JSON values as the parser does.

Crossing one complete value leaves the scanner in the state it was in, whatever
braces, quotes and escapes the value holds, and the scan that starts at an object's
opening brace stops exactly where the parser says the object ends. */
module JsonScan {
  import opened Text
  import opened Json
  import opened DraftReader

  predicate IsPlain(c: char) {
    c != '"' && c != '{' && c != '}'
  }

  /** The scanner at the same depth and outside any string. */
  function Outside(t: string, i: nat, depth: int): Option<nat> {
    ScanEnd(t, i, Lex(depth, false, false))
  }

  function Inside(t: string, i: nat, depth: int): Option<nat> {
    ScanEnd(t, i, Lex(depth, true, false))
  }

  lemma {:induction false} PlainScan(t: string, i: nat, j: nat, d: int)
    requires i <= j <= |t| && forall x | i <= x < j :: IsPlain(t[x])
    ensures Outside(t, i, d) == Outside(t, j, d)
    decreases j - i
  {
    if i < j { PlainScan(t, i + 1, j, d); }
  }

  lemma {:induction false} InsideScan(t: string, i: nat, j: nat, d: int)
    requires i <= j <= |t| && forall x | i <= x < j :: t[x] != '"' && t[x] != '\\'
    ensures Inside(t, i, d) == Inside(t, j, d)
    decreases j - i
  {
    if i < j { InsideScan(t, i + 1, j, d); }
  }

  lemma EscapeScan(t: string, i: nat, d: int)
    requires i + 1 < |t| && t[i] == '\\'
    ensures Inside(t, i, d) == Inside(t, i + 2, d)
  {
    assert ScanEnd(t, i + 1, Lex(d, true, true)) == Inside(t, i + 2, d);
  }

  lemma CharScan(t: string, i: nat, d: int)
    requires i < |t| && t[i] != '"' && ParseChar(t, i).Good?
    ensures Inside(t, i, d) == Inside(t, ParseChar(t, i).end, d)
  {
    hide Hex4, Inside;
    if t[i] == '\\' {
      EscapeScan(t, i, d);
      if t[i + 1] == 'u' { InsideScan(t, i + 2, i + 6, d); }
    } else {
      InsideScan(t, i, i + 1, d);
    }
  }

  lemma {:induction false} CharsScan(t: string, i: nat, d: int)
    requires ParseChars(t, i).Good?
    ensures Inside(t, i, d) == Outside(t, ParseChars(t, i).end, d)
    decreases |t| - i
  {
    hide ParseChar;
    if t[i] != '"' {
      CharScan(t, i, d);
      CharsScan(t, ParseChar(t, i).end, d);
    }
  }

  lemma StringScan(t: string, i: nat, d: int)
    requires ParseString(t, i).Good?
    ensures Outside(t, i, d) == Outside(t, ParseString(t, i).end, d)
  {
    hide ParseChars;
    CharsScan(t, i + 1, d);
  }

  lemma WordIsPlain(t: string, i: nat, w: string)
    requires At(t, i, w) && forall x | 0 <= x < |w| :: IsPlain(w[x])
    ensures forall x | i <= x < i + |w| :: IsPlain(t[x])
  {
    forall x | i <= x < i + |w| ensures IsPlain(t[x]) { assert t[i + (x - i)] == w[x - i]; }
  }

  lemma AtomIsPlain(t: string, i: nat)
    requires i <= |t| && ParseAtom(t, i).Good?
    ensures forall x | i <= x < ParseAtom(t, i).end :: IsPlain(t[x])
  {
    hide At, IsNumber;
    if At(t, i, "null") { WordIsPlain(t, i, "null"); }
    else if At(t, i, "true") { WordIsPlain(t, i, "true"); }
    else if At(t, i, "false") { WordIsPlain(t, i, "false"); }
    else if At(t, i, "NaN") { WordIsPlain(t, i, "NaN"); }
    else if At(t, i, "Infinity") { WordIsPlain(t, i, "Infinity"); }
    else if At(t, i, "-Infinity") { WordIsPlain(t, i, "-Infinity"); }
  }

  lemma BlankScan(t: string, i: nat, d: int)
    requires i <= |t|
    ensures Outside(t, i, d) == Outside(t, SkipJson(t, i), d)
  {
    hide Outside, SkipJson;
    PlainScan(t, i, SkipJson(t, i), d);
  }

  /** Blanks and, if there is one, the plain character after them. */
  lemma MarkScan(t: string, i: nat, d: int)
    requires i <= |t| && SkipJson(t, i) < |t| && IsPlain(t[SkipJson(t, i)])
    ensures Outside(t, i, d) == Outside(t, SkipJson(t, i) + 1, d)
  {
    hide Outside, SkipJson;
    PlainScan(t, i, SkipJson(t, i) + 1, d);
  }

  lemma CommaScan(t: string, i: nat, close: char, d: int)
    requires i <= |t| && NextPart(t, i, close).Comma?
    ensures Outside(t, i, d) == Outside(t, NextPart(t, i, close).start, d)
  {
    hide Outside, SkipJson;
    MarkScan(t, i, d);
    BlankScan(t, SkipJson(t, i) + 1, d);
  }

  lemma {:induction false} ValueScan(t: string, i: nat, d: int)
    requires i <= |t| && d > 0 && ParseValue(t, i).Good?
    ensures Outside(t, i, d) == Outside(t, ParseValue(t, i).end, d)
    decreases |t| - i, 1
  {
    hide ParseString, ParseAtom, ParseElements, ParseMembers, SkipJson, Outside;
    if i < |t| && t[i] == '"' {
      StringScan(t, i, d);
    } else if i < |t| && t[i] == '[' {
      PlainScan(t, i, i + 1, d);
      BlankScan(t, i + 1, d);
      var k := SkipJson(t, i + 1);
      if k < |t| && t[k] == ']' { PlainScan(t, k, k + 1, d); } else { ElementsScan(t, k, d); }
    } else if i < |t| && t[i] == '{' {
      BraceScan(t, i, d);
      ObjectScan(t, i, d + 1);
    } else {
      AtomIsPlain(t, i);
      PlainScan(t, i, ParseAtom(t, i).end, d);
    }
  }

  lemma BraceScan(t: string, i: nat, d: int)
    requires i < |t|
    ensures t[i] == '{' ==> Outside(t, i, d) == Outside(t, i + 1, d + 1)
    ensures t[i] == '}' && d == 1 ==> Outside(t, i, d) == Some(i + 1)
    ensures t[i] == '}' && d != 1 ==> Outside(t, i, d) == Outside(t, i + 1, d - 1)
  {
  }

  /** From just after an opening brace to the end of the object. */
  lemma {:induction false} ObjectScan(t: string, i: nat, d: int)
    requires i < |t| && t[i] == '{' && d > 0 && ParseValue(t, i).Good?
    ensures Outside(t, i + 1, d)
         == if d == 1 then Some(ParseValue(t, i).end) else Outside(t, ParseValue(t, i).end, d - 1)
    decreases |t| - i, 0
  {
    hide ParseMembers, SkipJson, Outside;
    BlankScan(t, i + 1, d);
    var k := SkipJson(t, i + 1);
    if k < |t| && t[k] == '}' { BraceScan(t, k, d); } else { MembersScan(t, k, d); }
  }

  lemma {:induction false} ElementsScan(t: string, i: nat, d: int)
    requires i <= |t| && d > 0 && ParseElements(t, i).Good?
    ensures Outside(t, i, d) == Outside(t, ParseElements(t, i).end, d)
    decreases |t| - i, 2
  {
    hide ParseValue, SkipJson, Outside;
    ValueScan(t, i, d);
    var e := ParseValue(t, i).end;
    match NextPart(t, e, ']') {
      case Close(_) => MarkScan(t, e, d);
      case Comma(j) =>
        CommaScan(t, e, ']', d);
        ElementsScan(t, j, d);
    }
  }

  lemma {:induction false} MemberScan(t: string, i: nat, d: int)
    requires i <= |t| && d > 0 && ParseMember(t, i).Good?
    ensures Outside(t, i, d) == Outside(t, ParseMember(t, i).end, d)
    decreases |t| - i, 2
  {
    hide ParseValue, ParseString, SkipJson, Outside;
    StringScan(t, i, d);
    var e := ParseString(t, i).end;
    MarkScan(t, e, d);
    var c := SkipJson(t, e);
    BlankScan(t, c + 1, d);
    ValueScan(t, SkipJson(t, c + 1), d);
  }

  lemma {:induction false} MembersScan(t: string, i: nat, d: int)
    requires i <= |t| && d > 0 && ParseMembers(t, i).Good?
    ensures Outside(t, i, d)
         == if d == 1 then Some(ParseMembers(t, i).end) else Outside(t, ParseMembers(t, i).end, d - 1)
    decreases |t| - i, 3
  {
    hide ParseMember, SkipJson, Outside;
    MemberScan(t, i, d);
    var e := ParseMember(t, i).end;
    match NextPart(t, e, '}') {
      case Close(_) =>
        BlankScan(t, e, d);
        BraceScan(t, SkipJson(t, e), d);
      case Comma(j) =>
        CommaScan(t, e, '}', d);
        MembersScan(t, j, d);
    }
  }

  /** The reader's scan of an object value finds the end that the parser finds. */
  lemma ScanMatchesParse(t: string, i: nat)
    requires i < |t| && t[i] == '{' && ParseValue(t, i).Good?
    ensures ScanEnd(t, i, Lex(0, false, false)) == Some(ParseValue(t, i).end)
  {
    hide ParseValue, ScanEnd;
    BraceScan(t, i, 0);
    ObjectScan(t, i, 1);
  }
}
