/** A value reads the same when it is cut out of the text around it.

This is what lets the draft reader hand one claim object to `json.loads` and obtain
the value that the parse of the whole draft holds at that place. */
module JsonSlice {
  import opened Text
  import opened Json

  lemma SkipSlice(t: string, a: nat, b: nat, i: nat)
    requires a <= i <= b <= |t|
    ensures SkipJson(t[a..b], i - a) == (if SkipJson(t, i) <= b then SkipJson(t, i) else b) - a
  {
    var s := t[a..b];
    assert forall x | a <= x < b :: s[x - a] == t[x];
    var j, k := SkipJson(t, i), SkipJson(s, i - a) + a;
    assert k < b ==> !IsJsonSpace(s[k - a]);
    assert j < b ==> !IsJsonSpace(s[j - a]);
    assert forall x | i - a <= x < k - a :: IsJsonSpace(s[x]);
  }

  lemma CharSlice(t: string, a: nat, b: nat, i: nat)
    requires a <= i < b <= |t| && ParseChar(t, i).Good? && ParseChar(t, i).end <= b
    ensures ParseChar(t[a..b], i - a) == Good(ParseChar(t, i).value, ParseChar(t, i).end - a)
  {
    hide HexDigit;
    var s := t[a..b];
    assert forall x | a <= x < b :: s[x - a] == t[x];
  }

  lemma {:induction false} CharsSlice(t: string, a: nat, b: nat, i: nat)
    requires a <= i <= b <= |t| && ParseChars(t, i).Good? && ParseChars(t, i).end <= b
    ensures ParseChars(t[a..b], i - a) == Good(ParseChars(t, i).value, ParseChars(t, i).end - a)
    decreases |t| - i
  {
    hide ParseChar;
    assert t[a..b][i - a] == t[i];
    if t[i] != '"' {
      CharSlice(t, a, b, i);
      CharsSlice(t, a, b, ParseChar(t, i).end);
    }
  }

  lemma StringSlice(t: string, a: nat, b: nat, i: nat)
    requires a <= i <= b <= |t| && ParseString(t, i).Good? && ParseString(t, i).end <= b
    ensures ParseString(t[a..b], i - a) == Good(ParseString(t, i).value, ParseString(t, i).end - a)
  {
    hide ParseChars;
    assert t[a..b][i - a] == t[i];
    CharsSlice(t, a, b, i + 1);
  }

  lemma AtSlice(t: string, a: nat, b: nat, i: nat, w: string)
    requires a <= i <= b <= |t| && |w| > 0
    ensures At(t[a..b], i - a, w) <==> At(t, i, w) && i + |w| <= b
  {
    assert forall x | i - a <= x < b - a :: t[a..b][x] == t[a + x];
  }

  lemma NumberSlice(t: string, a: nat, b: nat, i: nat)
    requires a <= i <= b <= |t| && NumberEnd(t, i) < b
    ensures NumberEnd(t[a..b], i - a) == NumberEnd(t, i) - a
    ensures t[a..b][i - a..NumberEnd(t, i) - a] == t[i..NumberEnd(t, i)]
  {
    var s := t[a..b];
    assert forall x | a <= x < b :: s[x - a] == t[x];
    var j, k := NumberEnd(t, i), NumberEnd(s, i - a) + a;
    assert k < b ==> !IsNumberChar(s[k - a]);
    assert j < b ==> !IsNumberChar(s[j - a]);
    assert forall x | i - a <= x < k - a :: IsNumberChar(s[x]);
  }

  /** A number ends where the next character is not part of it, so that character must be there. */
  lemma AtomSlice(t: string, a: nat, b: nat, i: nat)
    requires a <= i <= b <= |t| && ParseAtom(t, i).Good? && ParseAtom(t, i).end < b
    ensures ParseAtom(t[a..b], i - a) == Good(ParseAtom(t, i).value, ParseAtom(t, i).end - a)
  {
    hide At, IsNumber;
    AtSlice(t, a, b, i, "null");
    AtSlice(t, a, b, i, "true");
    AtSlice(t, a, b, i, "false");
    AtSlice(t, a, b, i, "NaN");
    AtSlice(t, a, b, i, "Infinity");
    AtSlice(t, a, b, i, "-Infinity");
    if NumberEnd(t, i) < b { NumberSlice(t, a, b, i); }
  }

  lemma NextSlice(t: string, a: nat, b: nat, i: nat, close: char)
    requires a <= i <= b <= |t|
    ensures NextPart(t, i, close).Close? && NextPart(t, i, close).end <= b
        ==> NextPart(t[a..b], i - a, close) == Close(NextPart(t, i, close).end - a)
    ensures NextPart(t, i, close).Comma? && NextPart(t, i, close).start < b
        ==> NextPart(t[a..b], i - a, close) == Comma(NextPart(t, i, close).start - a)
  {
    hide SkipJson;
    var n := SkipJson(t, i);
    SkipSlice(t, a, b, i);
    if n < b {
      assert t[a..b][n - a] == t[n];
      SkipSlice(t, a, b, n + 1);
    }
  }

  lemma SubSlice(t: string, a: nat, b: nat, i: nat, e: nat)
    requires a <= i <= e <= b <= |t|
    ensures t[a..b][i - a..e - a] == t[i..e]
  {
    assert forall x | 0 <= x < b - a :: t[a..b][x] == t[a + x];
  }

  lemma {:induction false} ValueSlice(t: string, a: nat, b: nat, i: nat)
    requires a <= i < b <= |t| && ParseValue(t, i).Good?
    requires ParseValue(t, i).end < b || (ParseValue(t, i).end == b && (t[i] == '"' || t[i] == '[' || t[i] == '{'))
    ensures ParseValue(t[a..b], i - a) == Good(ParseValue(t, i).value, ParseValue(t, i).end - a)
    decreases |t| - i, 0
  {
    hide ParseString, ParseAtom, ParseElements, ParseMembers;
    var s := t[a..b];
    assert s[i - a] == t[i];
    if t[i] == '"' {
      StringSlice(t, a, b, i);
    } else if t[i] == '[' || t[i] == '{' {
      SkipSlice(t, a, b, i + 1);
      var k := SkipJson(t, i + 1);
      if k < b { assert s[k - a] == t[k]; }
      if t[i] == '[' && t[k] != ']' { ElementsSlice(t, a, b, k); }
      if t[i] == '{' && t[k] != '}' { MembersSlice(t, a, b, k); }
    } else {
      AtomSlice(t, a, b, i);
    }
  }

  lemma {:induction false} ElementsSlice(t: string, a: nat, b: nat, i: nat)
    requires a <= i < b <= |t| && ParseElements(t, i).Good? && ParseElements(t, i).end <= b
    ensures ParseElements(t[a..b], i - a) == Good(ParseElements(t, i).value, ParseElements(t, i).end - a)
    decreases |t| - i, 1
  {
    hide ParseValue, NextPart;
    var e := ParseValue(t, i).end;
    ValueSlice(t, a, b, i);
    NextSlice(t, a, b, e, ']');
    if NextPart(t, e, ']').Comma? { ElementsSlice(t, a, b, NextPart(t, e, ']').start); }
  }

  lemma {:induction false} MemberSlice(t: string, a: nat, b: nat, i: nat)
    requires a <= i < b <= |t| && ParseMember(t, i).Good? && ParseMember(t, i).end < b
    ensures ParseMember(t[a..b], i - a) == Good(ParseMember(t, i).value, ParseMember(t, i).end - a)
    decreases |t| - i, 1
  {
    hide ParseValue, ParseString, SkipJson;
    StringSlice(t, a, b, i);
    var e := ParseString(t, i).end;
    SubSlice(t, a, b, i, e);
    SkipSlice(t, a, b, e);
    var c := SkipJson(t, e);
    assert t[a..b][c - a] == t[c];
    SkipSlice(t, a, b, c + 1);
    ValueSlice(t, a, b, SkipJson(t, c + 1));
  }

  lemma {:induction false} MembersSlice(t: string, a: nat, b: nat, i: nat)
    requires a <= i < b <= |t| && ParseMembers(t, i).Good? && ParseMembers(t, i).end <= b
    ensures ParseMembers(t[a..b], i - a) == Good(ParseMembers(t, i).value, ParseMembers(t, i).end - a)
    decreases |t| - i, 2
  {
    hide ParseMember, NextPart;
    var e := ParseMember(t, i).end;
    MemberSlice(t, a, b, i);
    NextSlice(t, a, b, e, '}');
    if NextPart(t, e, '}').Comma? { MembersSlice(t, a, b, NextPart(t, e, '}').start); }
  }

  /** The text of an object or array value, on its own, loads as that value. */
  lemma LoadsOfSlice(t: string, i: nat)
    requires i < |t| && (t[i] == '[' || t[i] == '{') && ParseValue(t, i).Good?
    ensures Loads(t[i..ParseValue(t, i).end]) == Some(ParseValue(t, i).value)
  {
    hide ParseValue;
    var e := ParseValue(t, i).end;
    var s := t[i..e];
    ValueSlice(t, i, e, i);
    assert s[0] == t[i];
  }
}
