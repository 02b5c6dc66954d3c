/** What streams from any JSON object, exactly.

Wherever the claims pattern matches in JSON text, its bracket opens a value. So the reader reads the array at the
first match, whosever it is. */
module FirstArray {
  import opened Text
  import opened KeySearch
  import opened Json
  import opened KeyFree
  import opened AnswerDraft
  import opened DraftReader
  import opened DraftAgreement
  import DraftChunking
  import JsonScan

  /** An array value stands right before index `h`, up to its bracket. */
  ghost predicate ArrayBefore(t: string, h: nat) {
    0 < h <= |t| && t[h - 1] == '[' && ParseValue(t, h - 1).Good?
  }

  ghost predicate OpensArrays(t: string, a: nat, b: nat) {
    forall p | a <= p < b && HitAt(Claims, t, p).Hit? :: ArrayBefore(t, HitAt(Claims, t, p).end)
  }

  lemma Quietly(t: string, a: nat, b: nat)
    requires Quiet(Claims, t, a, b)
    ensures OpensArrays(t, a, b)
  {
    hide HitAt, ArrayBefore;
  }

  lemma OpensJoin(t: string, a: nat, b: nat, c: nat)
    requires OpensArrays(t, a, b) && OpensArrays(t, b, c)
    ensures OpensArrays(t, a, c)
  {
    hide HitAt, ArrayBefore;
  }

  // ---------------------------------------------------------------- a match is a key with its array

  /** A match that starts inside an object key ends just inside the bracket of the key's value. */
  lemma KeyOpens(t: string, i: nat)
    requires i <= |t| && ParseMember(t, i).Good?
    ensures OpensArrays(t, i, ParseString(t, i).end)
  {
    hide ParseString, ParseValue, HitAt, ArrayBefore;
    forall p | i <= p < ParseString(t, i).end && HitAt(Claims, t, p).Hit?
      ensures ArrayBefore(t, HitAt(Claims, t, p).end)
    {
      MatchEnds(t, i, p);
      BracketOf(t, i, p);
    }
  }

  lemma MatchEnds(t: string, i: nat, p: nat)
    requires i <= |t| && ParseMember(t, i).Good? && i <= p < ParseString(t, i).end && HitAt(Claims, t, p).Hit?
    ensures p + |Quoted(Claims)| == ParseString(t, i).end
  {
    hide ParseString, ParseValue, HitAt, SkipJson, Quoted, Name;
    assert MarkFollows(t, ParseString(t, i).end);
    TokenHit(Claims, t, i, p);
  }

  lemma BracketOf(t: string, i: nat, p: nat)
    requires i <= |t| && ParseMember(t, i).Good? && HitAt(Claims, t, p).Hit?
    requires p + |Quoted(Claims)| == ParseString(t, i).end
    ensures ArrayBefore(t, HitAt(Claims, t, p).end)
  {
    hide ParseString, ParseValue, SkipJson, AfterColon, Quoted;
    var s, v := ParseString(t, i).end, ValueAt(t, i);
    ValueStarts(t, v);
    ColonBetween(t, s);
    AtStarts(t, v, "[");
  }

  lemma {:induction false} ValueOpens(t: string, i: nat)
    requires i <= |t| && ParseValue(t, i).Good?
    requires MarkFollows(t, ParseValue(t, i).end) && t[SkipJson(t, ParseValue(t, i).end)] != ':'
    ensures OpensArrays(t, i, ParseValue(t, i).end)
    decreases |t| - i, 0
  {
    hide OpensArrays, Quiet, ParseAtom, ParseElements, ParseMembers, ParseString, SkipJson, MarkFollows;
    if i < |t| && t[i] == '"' {
      TokenIsQuiet(Claims, t, i);
      Quietly(t, i, ParseValue(t, i).end);
    } else if i < |t| && (t[i] == '[' || t[i] == '{') {
      var j := SkipJson(t, i + 1);
      var e := ParseValue(t, i).end;
      NoQuoteIsQuiet(Claims, t, i, j);
      Quietly(t, i, j);
      if j < |t| && t[j] == (if t[i] == '[' then ']' else '}') {
        NoQuoteIsQuiet(Claims, t, j, e);
        Quietly(t, j, e);
      } else if t[i] == '[' {
        ElementsOpen(t, j);
      } else {
        MembersOpenArrays(t, j);
      }
      OpensJoin(t, i, j, e);
    } else {
      JsonScan.AtomIsPlain(t, i);
      NoQuoteIsQuiet(Claims, t, i, ParseAtom(t, i).end);
      Quietly(t, i, ParseAtom(t, i).end);
    }
  }

  lemma {:induction false} ElementsOpen(t: string, i: nat)
    requires i <= |t| && ParseElements(t, i).Good?
    ensures OpensArrays(t, i, ParseElements(t, i).end)
    decreases |t| - i, 1
  {
    hide OpensArrays, ParseValue, Quiet, NextPart, MarkFollows;
    var e := ParseValue(t, i).end;
    NextIsQuiet(Claims, t, e, ']');
    ValueOpens(t, i);
    match NextPart(t, e, ']') {
      case Close(j) =>
        Quietly(t, e, j);
        OpensJoin(t, i, e, j);
      case Comma(j) =>
        Quietly(t, e, j);
        ElementsOpen(t, j);
        OpensJoin(t, i, e, j);
        OpensJoin(t, i, j, ParseElements(t, j).end);
    }
  }

  lemma {:induction false} MemberOpens(t: string, i: nat)
    requires i <= |t| && ParseMember(t, i).Good?
    requires MarkFollows(t, ParseMember(t, i).end) && t[SkipJson(t, ParseMember(t, i).end)] != ':'
    ensures OpensArrays(t, i, ParseMember(t, i).end)
    decreases |t| - i, 1
  {
    hide OpensArrays, Quiet, ParseString, ParseValue, SkipJson;
    var s := ParseString(t, i).end;
    var v := SkipJson(t, SkipJson(t, s) + 1);
    KeyOpens(t, i);
    NoQuoteIsQuiet(Claims, t, s, v);
    Quietly(t, s, v);
    ValueOpens(t, v);
    OpensJoin(t, i, s, v);
    OpensJoin(t, i, v, ParseMember(t, i).end);
  }

  lemma {:induction false} MembersOpenArrays(t: string, i: nat)
    requires i <= |t| && ParseMembers(t, i).Good?
    ensures OpensArrays(t, i, ParseMembers(t, i).end)
    decreases |t| - i, 2
  {
    hide OpensArrays, ParseMember, Quiet, NextPart, MarkFollows;
    var e := ParseMember(t, i).end;
    NextIsQuiet(Claims, t, e, '}');
    MemberOpens(t, i);
    match NextPart(t, e, '}') {
      case Close(j) =>
        Quietly(t, e, j);
        OpensJoin(t, i, e, j);
      case Comma(j) =>
        Quietly(t, e, j);
        MembersOpenArrays(t, j);
        OpensJoin(t, i, e, j);
        OpensJoin(t, i, j, ParseMembers(t, j).end);
    }
  }

  // ---------------------------------------------------------------- a whole text

  /** A string with nothing but blanks after it has no match in it, having no colon. */
  lemma LoneString(t: string, i: nat)
    requires ParseString(t, i).Good? && forall x | ParseString(t, i).end <= x < |t| :: IsJsonSpace(t[x])
    ensures Quiet(Claims, t, i, ParseString(t, i).end)
  {
    hide ParseString, HitAt;
    var e := ParseString(t, i).end;
    TokenQuotes(t, i);
    forall p | i <= p < e ensures HitAt(Claims, t, p).Miss? {
      if HitAt(Claims, t, p).Hit? { var q, y := QuoteAndColon(t, p); }
    }
  }

  lemma QuoteAndColon(t: string, p: nat) returns (q: nat, y: nat)
    requires HitAt(Claims, t, p).Hit?
    ensures p < q < y < |t| && t[q] == '"' && t[q - 1] != '\\' && t[y] == ':'
  {
    hide HitAt, SkipSpaces, TailAt, Quoted;
    HitLetters(Claims, t, p);
    q := p + |Quoted(Claims)| - 1;
    y := SkipSpaces(t, q + 1);
  }

  lemma TextOpens(t: string)
    requires Loads(t).Some?
    ensures OpensArrays(t, 0, |t|)
  {
    hide OpensArrays, Quiet, ParseAtom, ParseElements, ParseMembers, ParseString, SkipJson;
    var o := SkipJson(t, 0);
    var e := ParseValue(t, o).end;
    NoQuoteIsQuiet(Claims, t, 0, o);
    NoQuoteIsQuiet(Claims, t, e, |t|);
    Quietly(t, 0, o);
    Quietly(t, e, |t|);
    TopOpens(t, o);
    OpensJoin(t, 0, o, e);
    OpensJoin(t, 0, e, |t|);
  }

  lemma TopOpens(t: string, o: nat)
    requires o <= |t| && ParseValue(t, o).Good? && forall x | ParseValue(t, o).end <= x < |t| :: IsJsonSpace(t[x])
    ensures OpensArrays(t, o, ParseValue(t, o).end)
  {
    hide OpensArrays, Quiet, ParseAtom, ParseElements, ParseMembers, ParseString, SkipJson;
    var e := ParseValue(t, o).end;
    if o < |t| && t[o] == '"' {
      LoneString(t, o);
      Quietly(t, o, e);
    } else if o < |t| && (t[o] == '[' || t[o] == '{') {
      var j := SkipJson(t, o + 1);
      NoQuoteIsQuiet(Claims, t, o, j);
      Quietly(t, o, j);
      if j < |t| && t[j] == (if t[o] == '[' then ']' else '}') {
        NoQuoteIsQuiet(Claims, t, j, e);
        Quietly(t, j, e);
      } else if t[o] == '[' {
        ElementsOpen(t, j);
      } else {
        MembersOpenArrays(t, j);
      }
      OpensJoin(t, o, j, e);
    } else {
      JsonScan.AtomIsPlain(t, o);
      NoQuoteIsQuiet(Claims, t, o, e);
      Quietly(t, o, e);
    }
  }

  /** The claims of the array at the first match of the claims pattern, up to an element that is no valid claim, once
  the first match of the abstain pattern says no. */
  function FirstClaims(known: set<Str>, t: string): seq<Claim> {
    if Search(Abstain, t).Miss? || Search(Abstain, t).value || Search(Claims, t).Miss? then []
    else
      var e := Search(Claims, t).end;
      if 0 < e <= |t| && ParseValue(t, e - 1).Good? && ParseValue(t, e - 1).value.Array?
      then Buildable(ParseValue(t, e - 1).value.items, known)
      else []
  }

  /** One feed of a JSON text yields exactly those. */
  lemma WholeIsFirstArray(known: set<Str>, t: string)
    requires Loads(t).Some?
    ensures Whole(known, t) == FirstClaims(known, t)
  {
    hide Loads, HitAt, ParseValue, ReadFrom, Buildable, OpensLikeObject;
    assert "" + t == t;
    TextOpens(t);
    var p := SearchFinds(Claims, t, 0);
    if Search(Claims, t).Hit? { ReadsAnyArray(known, t, Search(Claims, t).end - 1); }
  }

  /** Of any JSON text, whether or not it is accepted as a draft, every cutting streams nothing or exactly the claims of
  its first array; and all of these under every cutting if and only if the text is in stream order. */
  lemma StreamsTheFirstArray(known: set<Str>, t: string)
    requires Loads(t).Some?
    ensures forall chunks | Flatten(chunks) == t :: FeedAll(known, chunks).1 in {[], FirstClaims(known, t)}
    ensures FirstClaims(known, t) != [] ==>
      ((forall chunks | Flatten(chunks) == t :: FeedAll(known, chunks).1 == FirstClaims(known, t))
       <==> DraftChunking.StreamOrder(t))
  {
    hide Loads, Search, FeedAll, Whole, FirstClaims, Flatten;
    WholeIsFirstArray(known, t);
    forall chunks | Flatten(chunks) == t ensures FeedAll(known, chunks).1 in {[], FirstClaims(known, t)} {
      DraftChunking.AllOrNothing(known, chunks);
    }
    if FirstClaims(known, t) != [] { DraftChunking.ChunkingNeverMattersIff(known, t); }
  }

  /** So the reader shows only what an accepted draft says exactly when the first array of its text holds the draft's
  own claims, or none that stream. */
  lemma ShowsTheDraftIff(known: set<Str>, t: string)
    requires ParseAnswerDraft(t, known).Some?
    ensures var d := ParseAnswerDraft(t, known).value; var all := if d.abstain then [] else d.claims;
      (forall chunks | Flatten(chunks) == t :: FeedAll(known, chunks).1 in {[], all})
      <==> FirstClaims(known, t) in {[], all}
  {
    hide Loads, DraftOf, Search, FeedAll, Whole, FirstClaims, Flatten;
    StreamsTheFirstArray(known, t);
    WholeIsFirstArray(known, t);
    OneChunk(t);
    OneFeed(known, t);
  }

  lemma OneFeed(known: set<Str>, t: string)
    ensures FeedAll(known, [t]).1 == Whole(known, t)
  {
    hide Fed;
    assert [t][..0] == [] && FeedAll(known, []) == (FRESH, []);
    assert [] + Whole(known, t) == Whole(known, t);
  }
}
