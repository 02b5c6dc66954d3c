/** Where a key pattern cannot match.

The patterns are searched in raw text, so one could match inside a string that merely
quotes a key. In JSON text it never does: a match needs the key itself as an object key. */
module KeyFree {
  import opened Text
  import opened KeySearch
  import opened Json
  import JsonScan

  /** No match of the pattern starts in this stretch of text. */
  ghost predicate Quiet(k: Key, t: string, a: nat, b: nat) {
    forall p | a <= p < b :: HitAt(k, t, p).Miss?
  }

  /** The key that the pattern spells. */
  function Name(k: Key): Str {
    Codes(match k case Abstain => "abstain" case Claims => "claims")
  }

  /** No object key in the value is the pattern's key written without escapes, or holds a quote. */
  predicate Free(k: Key, v: Json) {
    match v
    case Array(items) => forall x | x in items :: Free(k, x)
    case Object(ms) => forall m | m in ms :: FreeMember(k, m)
    case _ => true
  }

  predicate FreeMember(k: Key, m: Member) {
    0x22 !in m.key && !(m.key == Name(k) && m.spelling == Quoted(k)) && Free(k, m.value)
  }

  // ---------------------------------------------------------------- what a match looks like

  lemma HitLetters(k: Key, t: string, p: nat)
    requires HitAt(k, t, p).Hit?
    ensures var q := p + |Quoted(k)| - 1;
      && p + 2 < q < |t| && t[p] == '"' && t[q] == '"'
      && At(t, p, Quoted(k)) && t[p..q + 1] == Quoted(k)
      && AfterColon(t, q + 1).Some?
    ensures forall y | p < y < p + |Quoted(k)| - 1 :: 'a' <= t[y] <= 'z'
  {
    hide AfterColon, TailAt;
    var w := Quoted(k);
    assert forall x | 0 < x < |w| - 1 :: 'a' <= w[x] <= 'z';
    assert t[p + 0] == w[0] && t[p + (|w| - 1)] == w[|w| - 1];
    forall y | p < y < p + |w| - 1 ensures 'a' <= t[y] <= 'z' { assert t[p + (y - p)] == w[y - p]; }
    forall x | 0 <= x < |w| ensures t[p..p + |w|][x] == w[x] { assert t[p + x] == w[x]; }
  }

  lemma NoQuoteIsQuiet(k: Key, t: string, a: nat, b: nat)
    requires b <= |t| && forall x | a <= x < b :: t[x] != '"'
    ensures Quiet(k, t, a, b)
  {
    hide HitAt;
    forall p | a <= p < b ensures HitAt(k, t, p).Miss? {
      if HitAt(k, t, p).Hit? { HitLetters(k, t, p); }
    }
  }

  lemma QuietJoin(k: Key, t: string, a: nat, b: nat, c: nat)
    requires Quiet(k, t, a, b) && Quiet(k, t, b, c)
    ensures Quiet(k, t, a, c)
  {
    hide HitAt;
  }

  // ---------------------------------------------------------------- string tokens

  /** A quote inside a string has a backslash before it, and is in the string's value. */
  lemma {:induction false} InnerQuote(t: string, i: nat, y: nat)
    requires ParseChars(t, i).Good? && i <= y < ParseChars(t, i).end - 1 && t[y] == '"'
    ensures i < y && t[y - 1] == '\\' && 0x22 in ParseChars(t, i).value
    decreases |t| - i
  {
    hide ParseChar;
    var j := ParseChar(t, i).end;
    EscapedQuote(t, i);
    if j <= y { InnerQuote(t, j, y); }
  }

  lemma EscapedQuote(t: string, i: nat)
    requires i < |t| && t[i] != '"' && ParseChar(t, i).Good?
    ensures forall y | i <= y < ParseChar(t, i).end && t[y] == '"' ::
      i < y && t[y - 1] == '\\' && ParseChar(t, i).value == 0x22
  {
  }

  lemma {:induction false} JoinKeepsQuote(us: Str)
    requires 0x22 in us
    ensures 0x22 in JoinSurrogates(us)
  {
    if |us| >= 2 && 0xd800 <= us[0] < 0xdc00 && 0xdc00 <= us[1] < 0xe000 {
      assert us == [us[0], us[1]] + us[2..];
      JoinKeepsQuote(us[2..]);
    } else if us[0] != 0x22 {
      assert us == [us[0]] + us[1..];
      JoinKeepsQuote(us[1..]);
    }
  }

  lemma {:induction false} CharsEnd(t: string, i: nat)
    requires ParseChars(t, i).Good?
    ensures i < ParseChars(t, i).end && t[ParseChars(t, i).end - 1] == '"'
    decreases |t| - i
  {
    hide ParseChar;
    if t[i] != '"' { CharsEnd(t, ParseChar(t, i).end); }
  }

  lemma TokenQuotes(t: string, i: nat)
    requires ParseString(t, i).Good?
    ensures i + 1 < ParseString(t, i).end && t[ParseString(t, i).end - 1] == '"'
    ensures forall y | i < y < ParseString(t, i).end - 1 && t[y] == '"' ::
      i + 1 < y && t[y - 1] == '\\' && 0x22 in ParseString(t, i).value
  {
    hide ParseChars;
    CharsEnd(t, i + 1);
    forall y | i < y < ParseString(t, i).end - 1 && t[y] == '"'
      ensures i + 1 < y && t[y - 1] == '\\' && 0x22 in ParseString(t, i).value
    {
      InnerQuote(t, i + 1, y);
      JoinKeepsQuote(ParseChars(t, i + 1).value);
    }
  }

  /** JSON blanks are blanks, so both skips stop at the same mark. */
  lemma SkipsAgree(t: string, i: nat)
    requires i <= |t| && SkipJson(t, i) < |t| && !IsSpace(t[SkipJson(t, i)])
    ensures SkipSpaces(t, i) == SkipJson(t, i)
  {
    hide SkipJson, SkipSpaces;
    var j, n := SkipSpaces(t, i), SkipJson(t, i);
    assert forall x | i <= x < n :: IsSpace(t[x]);
  }

  /** The first non-blank after the token is one of the marks that may follow one. */
  predicate MarkFollows(t: string, e: nat)
    requires e <= |t|
  {
    var n := SkipJson(t, e);
    n < |t| && (t[n] == ',' || t[n] == ']' || t[n] == '}' || t[n] == ':')
  }

  lemma ColonFollows(t: string, e: nat)
    requires e <= |t| && AfterColon(t, e).Some? && MarkFollows(t, e)
    ensures t[SkipJson(t, e)] == ':'
  {
    hide SkipJson, SkipSpaces;
    SkipsAgree(t, e);
  }

  lemma TokenHit(k: Key, t: string, i: nat, p: nat)
    requires ParseString(t, i).Good? && i <= p < ParseString(t, i).end && HitAt(k, t, p).Hit?
    requires MarkFollows(t, ParseString(t, i).end)
    ensures t[SkipJson(t, ParseString(t, i).end)] == ':' && p + |Quoted(k)| == ParseString(t, i).end
    ensures 0x22 in ParseString(t, i).value
      || (ParseString(t, i).value == Name(k) && t[i..ParseString(t, i).end] == Quoted(k))
  {
    hide TailAt, ParseString, SkipJson, SkipSpaces, HitAt, Quoted, Name;
    var e := ParseString(t, i).end;
    HitLetters(k, t, p);
    assert p != e - 1;
    TokenQuotes(t, i);
    var q := p + |Quoted(k)| - 1;
    assert t[e - 1] == '"' && 'a' <= t[q - 1];
    assert q >= e - 1;
    assert q <= e - 1;
    ColonFollows(t, e);
    if p == i { LiteralKey(k, t, i); }
  }

  /** Letters stand for themselves. */
  lemma {:induction false} LettersDecode(t: string, i: nat, j: nat)
    requires i <= j < |t| && t[j] == '"' && forall y | i <= y < j :: 'a' <= t[y] <= 'z'
    ensures ParseChars(t, i) == Good(Codes(t[i..j]), j + 1)
    decreases j - i
  {
    if i < j {
      LettersDecode(t, i + 1, j);
      assert Codes(t[i..j]) == [t[i] as int] + Codes(t[i + 1..j]);
    }
  }

  lemma {:induction false} LettersJoin(us: Str)
    requires forall x | 0 <= x < |us| :: us[x] < 0xd800
    ensures JoinSurrogates(us) == us
  {
    if us != [] {
      assert us == [us[0]] + us[1..] && us[0] < 0xd800;
      LettersJoin(us[1..]);
    }
  }

  /** The key written without escapes is the key. */
  lemma LiteralKey(k: Key, t: string, i: nat)
    requires At(t, i, Quoted(k))
    ensures ParseString(t, i) == Good(Name(k), i + |Quoted(k)|)
  {
    hide JoinSurrogates, ParseChars;
    var w := Quoted(k);
    var j := i + |w| - 1;
    assert t[i + 0] == w[0] && t[i + (|w| - 1)] == w[|w| - 1];
    assert forall x | 0 < x < |w| - 1 :: 'a' <= w[x] <= 'z';
    forall y | i < y < j ensures 'a' <= t[y] <= 'z' { assert t[i + (y - i)] == w[y - i]; }
    LettersDecode(t, i + 1, j);
    var a, b := t[i + 1..j], w[1..|w| - 1];
    forall x | 0 <= x < j - i - 1 ensures a[x] == b[x] { assert t[i + (x + 1)] == w[x + 1]; }
    assert a == b == match k case Abstain => "abstain" case Claims => "claims";
    LettersJoin(Name(k));
  }

  /** Inside a string token, closing quote included, the pattern matches only if the token is
  an object key that is the searched key or holds a quote. */
  lemma TokenIsQuiet(k: Key, t: string, i: nat)
    requires ParseString(t, i).Good? && MarkFollows(t, ParseString(t, i).end)
    requires t[SkipJson(t, ParseString(t, i).end)] == ':' ==>
      0x22 !in ParseString(t, i).value
      && !(ParseString(t, i).value == Name(k) && t[i..ParseString(t, i).end] == Quoted(k))
    ensures Quiet(k, t, i, ParseString(t, i).end)
  {
    hide ParseString, SkipJson, HitAt;
    forall p | i <= p < ParseString(t, i).end ensures HitAt(k, t, p).Miss? {
      if HitAt(k, t, p).Hit? { TokenHit(k, t, i, p); }
    }
  }

  // ---------------------------------------------------------------- values

  lemma NextIsQuiet(k: Key, t: string, i: nat, close: char)
    requires i <= |t| && (close == ']' || close == '}') && !NextPart(t, i, close).Neither?
    ensures MarkFollows(t, i) && t[SkipJson(t, i)] != ':'
    ensures var n := NextPart(t, i, close); Quiet(k, t, i, if n.Comma? then n.start else n.end)
  {
    hide SkipJson, Quiet;
    match NextPart(t, i, close) {
      case Comma(j) => NoQuoteIsQuiet(k, t, i, j);
      case Close(j) => NoQuoteIsQuiet(k, t, i, j);
    }
  }

  /** A value with no such key in it hides no match. */
  lemma {:induction false} ValueIsQuiet(k: Key, t: string, i: nat)
    requires i <= |t| && ParseValue(t, i).Good? && Free(k, ParseValue(t, i).value)
    requires MarkFollows(t, ParseValue(t, i).end) && t[SkipJson(t, ParseValue(t, i).end)] != ':'
    ensures Quiet(k, t, i, ParseValue(t, i).end)
    decreases |t| - i, 0
  {
    hide Quiet, ParseAtom, ParseElements, ParseMembers, ParseString, SkipJson, FreeMember, MarkFollows;
    if i < |t| && t[i] == '"' {
      TokenIsQuiet(k, t, i);
    } else if i < |t| && (t[i] == '[' || t[i] == '{') {
      var j := SkipJson(t, i + 1);
      var e := ParseValue(t, i).end;
      NoQuoteIsQuiet(k, t, i, j);
      if j < |t| && t[j] == (if t[i] == '[' then ']' else '}') {
        NoQuoteIsQuiet(k, t, j, e);
      } else if t[i] == '[' {
        ElementsAreQuiet(k, t, j);
      } else {
        MembersAreQuiet(k, t, j);
      }
      QuietJoin(k, t, i, j, e);
    } else {
      JsonScan.AtomIsPlain(t, i);
      NoQuoteIsQuiet(k, t, i, ParseAtom(t, i).end);
    }
  }

  lemma {:induction false} ElementsAreQuiet(k: Key, t: string, i: nat)
    requires i <= |t| && ParseElements(t, i).Good? && forall v | v in ParseElements(t, i).value :: Free(k, v)
    ensures Quiet(k, t, i, ParseElements(t, i).end)
    decreases |t| - i, 1
  {
    hide ParseValue, Quiet, NextPart, Free, MarkFollows;
    var e := ParseValue(t, i).end;
    assert ParseElements(t, i).value[0] == ParseValue(t, i).value;
    NextIsQuiet(k, t, e, ']');
    ValueIsQuiet(k, t, i);
    match NextPart(t, e, ']') {
      case Close(j) => QuietJoin(k, t, i, e, j);
      case Comma(j) =>
        assert ParseElements(t, i).value[1..] == ParseElements(t, j).value;
        ElementsAreQuiet(k, t, j);
        QuietJoin(k, t, i, e, j);
        QuietJoin(k, t, i, j, ParseElements(t, j).end);
    }
  }

  lemma {:induction false} MemberIsQuiet(k: Key, t: string, i: nat)
    requires i <= |t| && ParseMember(t, i).Good? && FreeMember(k, ParseMember(t, i).value)
    requires MarkFollows(t, ParseMember(t, i).end) && t[SkipJson(t, ParseMember(t, i).end)] != ':'
    ensures Quiet(k, t, i, ParseMember(t, i).end)
    decreases |t| - i, 1
  {
    hide Quiet, ParseString, ParseValue, SkipJson, Free;
    hide Name, Quoted;
    var s := ParseString(t, i).end;
    var v := SkipJson(t, SkipJson(t, s) + 1);
    TokenIsQuiet(k, t, i);
    NoQuoteIsQuiet(k, t, s, v);
    ValueIsQuiet(k, t, v);
    QuietJoin(k, t, i, s, v);
    QuietJoin(k, t, i, v, ParseMember(t, i).end);
  }

  lemma {:induction false} MembersAreQuiet(k: Key, t: string, i: nat)
    requires i <= |t| && ParseMembers(t, i).Good? && forall m | m in ParseMembers(t, i).value :: FreeMember(k, m)
    ensures Quiet(k, t, i, ParseMembers(t, i).end)
    decreases |t| - i, 2
  {
    hide ParseMember, Quiet, NextPart, FreeMember, MarkFollows;
    var e := ParseMember(t, i).end;
    assert ParseMembers(t, i).value[0] == ParseMember(t, i).value;
    NextIsQuiet(k, t, e, '}');
    MemberIsQuiet(k, t, i);
    match NextPart(t, e, '}') {
      case Close(j) => QuietJoin(k, t, i, e, j);
      case Comma(j) =>
        assert ParseMembers(t, i).value[1..] == ParseMembers(t, j).value;
        MembersAreQuiet(k, t, j);
        QuietJoin(k, t, i, e, j);
        QuietJoin(k, t, i, j, ParseMembers(t, j).end);
    }
  }

  /** A draft object with no such key is nowhere matched. */
  lemma ObjectHasNoHit(k: Key, t: string)
    requires Loads(t).Some? && Loads(t).value.Object? && Loads(t).value.members != []
    requires forall m | m in Loads(t).value.members :: FreeMember(k, m)
    ensures Search(k, t).Miss?
  {
    hide ParseAtom, ParseElements, ParseMembers, ParseString, SkipJson, FreeMember, HitAt, Search;
    var o := SkipJson(t, 0);
    ObjectOpens(t, o);
    var i := SkipJson(t, o + 1);
    var e := ParseValue(t, o).end;
    NoQuoteIsQuiet(k, t, 0, i);
    MembersAreQuiet(k, t, i);
    NoQuoteIsQuiet(k, t, e, |t|);
    QuietJoin(k, t, 0, i, e);
    QuietJoin(k, t, 0, e, |t|);
    QuietMisses(k, t);
  }

  lemma QuietMisses(k: Key, t: string)
    requires Quiet(k, t, 0, |t|)
    ensures Search(k, t).Miss?
  {
    hide HitAt;
    var p := SearchFinds(k, t, 0);
  }

  // ---------------------------------------------------------------- which character opens which value

  function Word(b: bool): string {
    if b then "true" else "false"
  }

  lemma AtomKind(t: string, i: nat)
    requires i <= |t|
    ensures ParseAtom(t, i).Good? ==> var v := ParseAtom(t, i).value; v.Null? || v.Bool? || v.Number?
    ensures ParseAtom(t, i).Good? && ParseAtom(t, i).value.Bool? ==>
      var w := Word(ParseAtom(t, i).value.b); At(t, i, w) && ParseAtom(t, i).end == i + |w|
  {
    hide At, IsNumber;
  }

  lemma ObjectOpens(t: string, i: nat)
    requires i <= |t| && ParseValue(t, i).Good?
    ensures i < |t|
    ensures ParseValue(t, i).value.Object? <==> t[i] == '{'
    ensures ParseValue(t, i).value.Array? <==> t[i] == '['
  {
    hide ParseAtom, ParseString, ParseElements, ParseMembers;
    AtomKind(t, i);
  }
}
