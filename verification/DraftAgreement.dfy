/** The reader agrees with the whole-text parse.

For a draft in schema order the claims that stream out, however the text is cut, are
the claims that `parse_answer_draft` returns. */
module DraftAgreement {
  import opened Text
  import opened KeySearch
  import opened Json
  import opened KeyFree
  import opened AnswerDraft
  import opened DraftReader
  import JsonSlice
  import JsonScan
  import DraftChunking

  /** The three members in the order of the schema, the two searched keys written without escapes. Blanks, the
  escapes elsewhere and the insides of claims are free. */
  predicate SchemaOrdered(t: string) {
    match Loads(t)
    case Some(Object(ms)) =>
      && |ms| == 3 && ms[0].key == ABSTAIN && ms[1].key == MISSING && ms[2].key == CLAIMS
      && ms[0].spelling == Quoted(Abstain) && ms[2].spelling == Quoted(Claims)
    case _ => false
  }

  // ---------------------------------------------------------------- the claims array

  /** The claims of the longest part of an array, from its start, in which every element is a valid claim. */
  function Buildable(vs: seq<Json>, known: set<Str>): seq<Claim> {
    if vs == [] then []
    else match BuildClaim(vs[0], known)
      case None => []
      case Some(c) => [c] + Buildable(vs[1..], known)
  }

  lemma {:induction false} BuildableIsAll(vs: seq<Json>, known: set<Str>)
    ensures |Buildable(vs, known)| == |vs| <==> BuildClaims(vs, known).Some?
    ensures |Buildable(vs, known)| <= |vs|
    ensures BuildClaims(vs, known).Some? ==> BuildClaims(vs, known).value == Buildable(vs, known)
  {
    hide BuildClaim;
    if vs != [] { BuildableIsAll(vs[1..], known); }
  }

  /** From anywhere in the blanks and commas before an element, the reader reads the rest of the array, up to an
  element that is no valid claim. */
  lemma {:induction false} ReadsElements(known: set<Str>, t: string, start: nat, i: nat)
    requires start <= i <= |t| && forall x | start <= x < i :: IsSeparator(t[x])
    requires ParseElements(t, i).Good?
    ensures var vs := ParseElements(t, i).value; var read := ReadFrom(known, t, start);
      read.claims == Buildable(vs, known) && (read.gaveUp <==> |Buildable(vs, known)| < |vs|)
    decreases |t| - i
  {
    hide ParseValue, NextPart, BuildClaim, NextObject, ClaimOf;
    var v, e := ParseValue(t, i).value, ParseValue(t, i).end;
    ReadsElement(known, t, start, i);
    if BuildClaim(v, known).Some? {
      match NextPart(t, e, ']') {
        case Close(_) => AtArrayEnd(t, e);
        case Comma(j) =>
          CommaSeparates(t, e);
          ReadsElements(known, t, e, j);
      }
    }
  }

  lemma ReadsElement(known: set<Str>, t: string, start: nat, i: nat)
    requires start <= i <= |t| && forall x | start <= x < i :: IsSeparator(t[x])
    requires ParseValue(t, i).Good?
    ensures var v, e := ParseValue(t, i).value, ParseValue(t, i).end;
      if v.Object? then
        NextObject(t, start) == DraftReader.Object(t[i..e], e) && ClaimOf(t[i..e], known) == BuildClaim(v, known)
      else NextObject(t, start).Stray? && BuildClaim(v, known).None?
  {
    hide ScanEnd, Loads, ParseValue;
    ValueStarts(t, i);
    ObjectOpens(t, i);
    var k := SkipSeparators(t, start);
    assert k == i;
    if ParseValue(t, i).value.Object? {
      JsonScan.ScanMatchesParse(t, i);
      JsonSlice.LoadsOfSlice(t, i);
    }
  }

  lemma ValueStarts(t: string, i: nat)
    requires i <= |t| && ParseValue(t, i).Good?
    ensures i < |t| && !IsSeparator(t[i]) && !IsSpace(t[i]) && t[i] != ']'
  {
    hide ParseString, ParseElements, ParseMembers, IsNumber, At;
    if i < |t| && t[i] != '"' && t[i] != '[' && t[i] != '{' { AtomStarts(t, i); }
  }

  lemma AtomStarts(t: string, i: nat)
    requires i <= |t| && ParseAtom(t, i).Good?
    ensures i < |t| && (IsNumberChar(t[i]) || t[i] in "ntfNI")
  {
    hide IsNumber, At;
    if At(t, i, "null") {
      AtStarts(t, i, "null");
    } else if At(t, i, "true") {
      AtStarts(t, i, "true");
    } else if At(t, i, "false") {
      AtStarts(t, i, "false");
    } else if At(t, i, "NaN") {
      AtStarts(t, i, "NaN");
    } else if At(t, i, "Infinity") {
      AtStarts(t, i, "Infinity");
    } else if At(t, i, "-Infinity") {
      AtStarts(t, i, "-Infinity");
    }
  }

  lemma AtArrayEnd(t: string, i: nat)
    requires i <= |t| && (NextPart(t, i, ']').Close? || (SkipJson(t, i) < |t| && t[SkipJson(t, i)] == ']'))
    ensures NextObject(t, i).Incomplete?
  {
    var n := SkipJson(t, i);
    assert !IsSeparator(t[n]);
    assert SkipSeparators(t, i) == n;
  }

  lemma CommaSeparates(t: string, i: nat)
    requires i <= |t| && NextPart(t, i, ']').Comma?
    ensures forall x | i <= x < NextPart(t, i, ']').start :: IsSeparator(t[x])
  {
    hide SkipJson;
  }

  /** The reading of any array value, from just after its bracket. */
  lemma ReadsAnyArray(known: set<Str>, t: string, i: nat)
    requires i < |t| && t[i] == '[' && ParseValue(t, i).Good?
    ensures ParseValue(t, i).value.Array?
    ensures var vs := ParseValue(t, i).value.items; var read := ReadFrom(known, t, i + 1);
      read.claims == Buildable(vs, known) && (read.gaveUp <==> |Buildable(vs, known)| < |vs|)
  {
    hide ParseElements, NextObject, BuildClaim, SkipJson;
    var k := SkipJson(t, i + 1);
    if k < |t| && t[k] == ']' {
      AtArrayEnd(t, i + 1);
    } else {
      ReadsElements(known, t, i + 1, k);
    }
  }

  lemma ReadsArray(known: set<Str>, t: string, i: nat)
    requires i < |t| && t[i] == '[' && ParseValue(t, i).Good?
    requires BuildClaims(ParseValue(t, i).value.items, known).Some?
    ensures ReadFrom(known, t, i + 1).claims == BuildClaims(ParseValue(t, i).value.items, known).value
    ensures !ReadFrom(known, t, i + 1).gaveUp
  {
    hide ParseValue, ReadFrom, BuildClaims;
    ReadsAnyArray(known, t, i);
    BuildableIsAll(ParseValue(t, i).value.items, known);
  }

  // ---------------------------------------------------------------- where the two keys are found

  /** Where the value of the member at `i` starts. */
  function ValueAt(t: string, i: nat): nat
    requires i <= |t| && ParseMember(t, i).Good?
  {
    SkipJson(t, SkipJson(t, ParseString(t, i).end) + 1)
  }

  /** A searched key in front of its value. */
  lemma KeyMatches(k: Key, t: string, i: nat)
    requires i <= |t| && ParseMember(t, i).Good? && ParseMember(t, i).value.spelling == Quoted(k)
    requires k == Abstain ==> ParseMember(t, i).value.value.Bool?
    requires k == Claims ==> ParseMember(t, i).value.value.Array?
    ensures HitAt(k, t, i).Hit?
    ensures k == Abstain ==> HitAt(k, t, i) == Hit(ParseMember(t, i).end, ParseMember(t, i).value.value.b)
    ensures k == Claims ==> HitAt(k, t, i).end == ValueAt(t, i) + 1 <= |t| && t[ValueAt(t, i)] == '['
    ensures ParseValue(t, ValueAt(t, i)) == Good(ParseMember(t, i).value.value, ParseMember(t, i).end)
  {
    hide ParseString, ParseValue, SkipJson, AfterColon, At, Quoted;
    var s, v := ParseString(t, i).end, ValueAt(t, i);
    KeySpelled(k, t, i);
    ObjectOpens(t, v);
    if k == Abstain { BoolAt(t, v); }
    ColonBetween(t, s);
    TailMatches(k, t, v, k == Abstain && ParseMember(t, i).value.value.b);
  }

  lemma ColonBetween(t: string, s: nat)
    requires s <= |t| && SkipJson(t, s) < |t| && t[SkipJson(t, s)] == ':'
    requires var v := SkipJson(t, SkipJson(t, s) + 1); v < |t| && !IsSpace(t[v])
    ensures AfterColon(t, s) == Some(SkipJson(t, SkipJson(t, s) + 1))
  {
    hide SkipJson, SkipSpaces;
    SkipsAgree(t, s);
    SkipsAgree(t, SkipJson(t, s) + 1);
  }

  lemma TailMatches(k: Key, t: string, v: nat, b: bool)
    requires k == Abstain ==> At(t, v, Word(b))
    requires k == Claims ==> v < |t| && t[v] == '[' && !b
    ensures TailAt(k, t, v) == Hit(if k == Abstain then v + |Word(b)| else v + 1, b)
  {
    hide At;
    if k == Claims { assert At(t, v, "[") by { WordAtOne(t, v); } }
    else {
      AtStarts(t, v, Word(b));
      if At(t, v, Word(!b)) { AtStarts(t, v, Word(!b)); }
    }
  }

  lemma WordAtOne(t: string, v: nat)
    requires v < |t|
    ensures At(t, v, [t[v]])
  {
  }

  lemma KeySpelled(k: Key, t: string, i: nat)
    requires ParseString(t, i).Good? && t[i..ParseString(t, i).end] == Quoted(k)
    ensures At(t, i, Quoted(k)) && ParseString(t, i).end == i + |Quoted(k)|
  {
    hide ParseString, Quoted;
    var w := t[i..ParseString(t, i).end];
    forall x | 0 <= x < |w| ensures t[i + x] == w[x] {}
  }

  lemma BoolAt(t: string, i: nat)
    requires i <= |t| && ParseValue(t, i).Good? && ParseValue(t, i).value.Bool?
    ensures var w := Word(ParseValue(t, i).value.b);
      At(t, i, w) && ParseValue(t, i).end == i + |w| && i < |t| && !IsSpace(t[i])
  {
    hide ParseAtom, ParseString, ParseElements, ParseMembers, At;
    AtomKind(t, i);
    AtStarts(t, i, Word(ParseValue(t, i).value.b));
  }

  // ---------------------------------------------------------------- the members of the draft

  lemma MembersHead(t: string, i: nat)
    requires i <= |t| && ParseMembers(t, i).Good?
    ensures ParseMember(t, i).Good? && ParseMember(t, i).value == ParseMembers(t, i).value[0]
    ensures !NextPart(t, ParseMember(t, i).end, '}').Neither?
    ensures |ParseMembers(t, i).value| > 1 ==>
      var n := NextPart(t, ParseMember(t, i).end, '}');
      n.Comma? && ParseMembers(t, n.start).Good? && ParseMembers(t, n.start).value == ParseMembers(t, i).value[1..]
  {
    hide ParseMember, NextPart;
  }

  /** Where member number `x` starts, the first one being at `i`. */
  function MemberAt(t: string, i: nat, x: nat): (p: nat)
    requires i <= |t| && ParseMembers(t, i).Good? && x < |ParseMembers(t, i).value|
    ensures i <= p <= |t| && ParseMember(t, p).Good?
    ensures ParseMember(t, p).value == ParseMembers(t, i).value[x]
    decreases x
  {
    MembersHead(t, i);
    if x == 0 then i else MemberAt(t, NextPart(t, ParseMember(t, i).end, '}').start, x - 1)
  }

  lemma {:induction false} MembersAscend(t: string, i: nat, x: nat, y: nat)
    requires i <= |t| && ParseMembers(t, i).Good? && x < y < |ParseMembers(t, i).value|
    ensures ParseMember(t, MemberAt(t, i, x)).end < MemberAt(t, i, y)
    decreases x
  {
    hide ParseMember, ParseMembers, NextPart;
    MembersHead(t, i);
    if x > 0 { MembersAscend(t, NextPart(t, ParseMember(t, i).end, '}').start, x - 1, y - 1); }
  }

  /** Before a member stand only the members before it. */
  lemma {:induction false} QuietBefore(k: Key, t: string, i: nat, x: nat)
    requires i <= |t| && ParseMembers(t, i).Good? && x < |ParseMembers(t, i).value|
    requires forall y | 0 <= y < x :: FreeMember(k, ParseMembers(t, i).value[y])
    ensures Quiet(k, t, i, MemberAt(t, i, x))
    decreases x
  {
    hide ParseMember, ParseMembers, NextPart, FreeMember, Quiet, MarkFollows;
    MembersHead(t, i);
    if x == 0 {
      NoQuoteIsQuiet(k, t, i, i);
    } else {
      var e := ParseMember(t, i).end;
      var n := NextPart(t, e, '}').start;
      NextIsQuiet(k, t, e, '}');
      MemberIsQuiet(k, t, i);
      QuietJoin(k, t, i, e, n);
      QuietBefore(k, t, n, x - 1);
      QuietJoin(k, t, i, n, MemberAt(t, i, x));
    }
  }

  /** Where the members of a text that is one object start. */
  function MembersStart(t: string): (i: nat)
    requires Loads(t).Some? && Loads(t).value.Object? && Loads(t).value.members != []
    ensures i <= |t| && ParseMembers(t, i).Good? && ParseMembers(t, i).value == Loads(t).value.members
    ensures OpensLikeObject(t) && forall x | 0 <= x < i :: t[x] != '"'
  {
    MembersOpen(t);
    SkipJson(t, SkipJson(t, 0) + 1)
  }

  lemma MembersOpen(t: string)
    requires Loads(t).Some? && Loads(t).value.Object? && Loads(t).value.members != []
    ensures SkipJson(t, 0) < |t| && OpensLikeObject(t)
    ensures var i := SkipJson(t, SkipJson(t, 0) + 1);
      && ParseMembers(t, i).Good? && ParseMembers(t, i).value == Loads(t).value.members
      && forall x | 0 <= x < i :: t[x] != '"'
  {
    hide ParseMembers, ParseElements, ParseAtom, ParseString, SkipJson, SkipSpaces;
    ObjectOpens(t, SkipJson(t, 0));
    SkipsAgree(t, 0);
  }

  /** If no earlier member holds the key, the first match of its pattern is at the member that spells it. */
  lemma KeyFound(k: Key, t: string, x: nat)
    requires Loads(t).Some? && Loads(t).value.Object? && x < |Loads(t).value.members|
    requires var m := Loads(t).value.members[x];
      m.spelling == Quoted(k) && if k == Abstain then m.value.Bool? else m.value.Array?
    requires forall y | 0 <= y < x :: FreeMember(k, Loads(t).value.members[y])
    ensures var p := MemberAt(t, MembersStart(t), x); var m := Loads(t).value.members[x];
      && Search(k, t).Hit?
      && (k == Abstain ==> Search(k, t) == Hit(ParseMember(t, p).end, m.value.b))
      && (k == Claims ==> p < Search(k, t).end <= |t| && t[Search(k, t).end - 1] == '['
                          && ParseValue(t, Search(k, t).end - 1) == Good(m.value, ParseMember(t, p).end))
  {
    hide ParseMember, ParseMembers, ParseValue, ParseString, FreeMember, HitAt, Quoted, MembersStart, Loads;
    var i := MembersStart(t);
    var p := MemberAt(t, i, x);
    NoQuoteIsQuiet(k, t, 0, i);
    QuietBefore(k, t, i, x);
    KeyMatches(k, t, p);
    SearchIsFirst(k, t, 0, p);
    HitPrefix(k, t, |t|, p);
  }

  /** The three values, as `DraftOf` takes them from the object. */
  lemma DraftValues(ms: seq<Member>, known: set<Str>)
    requires |ms| == 3 && ms[0].key == ABSTAIN && ms[1].key == MISSING && ms[2].key == CLAIMS
    requires DraftOf(Json.Object(ms), known).Some?
    ensures var d := DraftOf(Json.Object(ms), known).value;
      && ms[0].value == Bool(d.abstain) && StringList(ms[1].value).Some?
      && ms[2].value.Array? && BuildClaims(ms[2].value.items, known) == Some(d.claims)
  {
    hide Keys, BuildClaims, StringList;
    KeysDiffer();
    assert ms[..2][1] == ms[1] && ms[..2][..1] == ms[..1] && ms[..1][0] == ms[0];
    assert Get(ms, MISSING) == Get(ms[..2], MISSING) == Some(ms[1].value);
    assert Get(ms, ABSTAIN) == Get(ms[..2], ABSTAIN) == Get(ms[..1], ABSTAIN) == Some(ms[0].value);
  }

  lemma KeysDiffer()
    ensures ABSTAIN != MISSING && MISSING != CLAIMS && CLAIMS != ABSTAIN
    ensures ABSTAIN == Name(Abstain) && CLAIMS == Name(Claims)
    ensures Codes("text") != Codes("evidence_ids")
    ensures forall k :: Codes("text") != Name(k) && Codes("evidence_ids") != Name(k)
    ensures forall w | w in [ABSTAIN, MISSING, CLAIMS, Codes("text"), Codes("evidence_ids")] :: 0x22 !in w
  {
    assert |CLAIMS| == 6 && |MISSING| == 19 && |ABSTAIN| == 7 && |Codes("text")| == 4 && |Codes("evidence_ids")| == 12;
    NoQuote("abstain");
    NoQuote("missing_information");
    NoQuote("claims");
    NoQuote("text");
    NoQuote("evidence_ids");
  }

  lemma NoQuote(w: string)
    requires forall x | 0 <= x < |w| :: w[x] != '"'
    ensures 0x22 !in Codes(w)
  {
    forall x | 0 <= x < |w| ensures Codes(w)[x] != 0x22 { assert w[x] != '"'; }
  }

  lemma StringListIsFree(k: Key, v: Json)
    requires StringList(v).Some?
    ensures Free(k, v)
  {
  }

  lemma FreeBefore(ms: seq<Member>)
    requires |ms| == 3 && ms[0].key == ABSTAIN && ms[0].value.Bool? && ms[1].key == MISSING
    requires StringList(ms[1].value).Some?
    ensures FreeMember(Claims, ms[0]) && FreeMember(Claims, ms[1])
  {
    hide Free, StringList, Quoted, Name;
    KeysDiffer();
    var keys := [ABSTAIN, MISSING, CLAIMS, Codes("text"), Codes("evidence_ids")];
    assert ABSTAIN in keys && MISSING in keys;
    StringListIsFree(Claims, ms[1].value);
    BoolIsFree(Claims, ms[0].value);
  }

  /** Up to its bracket, the array of these claims stands before index `e`. */
  predicate ClaimsBefore(known: set<Str>, t: string, e: nat, cs: seq<Claim>) {
    && 0 < e <= |t| && t[e - 1] == '[' && ParseValue(t, e - 1).Good? && ParseValue(t, e - 1).value.Array?
    && BuildClaims(ParseValue(t, e - 1).value.items, known) == Some(cs)
  }

  /** In a draft in schema order the two patterns first match at the draft's own keys: nothing in
  `missing_information`, whatever it quotes, is taken for one. */
  lemma OpeningFound(known: set<Str>, t: string)
    requires SchemaOrdered(t) && ParseAnswerDraft(t, known).Some?
    ensures DraftChunking.StreamOrder(t) && Search(Abstain, t).value == ParseAnswerDraft(t, known).value.abstain
    ensures ClaimsBefore(known, t, Search(Claims, t).end, ParseAnswerDraft(t, known).value.claims)
  {
    hide ParseMember, ParseMembers, ParseValue, Loads, OpensLikeObject, DraftOf, BuildClaims, StringList, MembersStart,
         FreeMember, Quoted, Search;
    var ms := Loads(t).value.members;
    DraftValues(ms, known);
    FreeBefore(ms);
    KeyFound(Abstain, t, 0);
    KeyFound(Claims, t, 2);
    MembersAscend(t, MembersStart(t), 0, 2);
  }

  /** For every draft in schema order that parses, and for every cutting of its text, the reader
  yields exactly the claims of the parse; of a draft that abstains it yields none. */
  lemma StreamsTheDraft(known: set<Str>, t: string, chunks: seq<string>)
    requires Flatten(chunks) == t && SchemaOrdered(t) && ParseAnswerDraft(t, known).Some?
    ensures var d := ParseAnswerDraft(t, known).value;
      && FeedAll(known, chunks).1 == (if d.abstain then [] else d.claims)
      && (!d.abstain ==> !FeedAll(known, chunks).0.gaveUp)
  {
    hide SchemaOrdered, ParseAnswerDraft, ParseValue, Search, ReadFrom, BuildClaims, OpensLikeObject, FeedAll;
    OpeningFound(known, t);
    ReadsArray(known, t, Search(Claims, t).end - 1);
    if Search(Abstain, t).value {
      DraftChunking.AllOrNothing(known, chunks);
      assert "" + t == t;
    } else {
      DraftChunking.AllSettled(known, t, chunks);
    }
  }

  // ---------------------------------------------------------------- any order, any spelling

  /** No object in the value repeats a key. */
  predicate SingleKeys(v: Json) {
    match v
    case Array(items) => forall x | x in items :: SingleKeys(x)
    case Object(ms) => KeysOnce(ms) && forall m | m in ms :: SingleKeysIn(m)
    case _ => true
  }

  predicate SingleKeysIn(m: Member) {
    SingleKeys(m.value)
  }

  predicate KeysOnce(ms: seq<Member>) {
    forall i, j | 0 <= i < j < |ms| :: ms[i].key != ms[j].key
  }

  lemma MembersOnce(ms: seq<Member>)
    requires KeysOnce(ms) && forall m | m in ms :: SingleKeys(m.value)
    ensures SingleKeys(Json.Object(ms))
  {
    forall m | m in ms ensures SingleKeysIn(m) { assert SingleKeys(m.value); }
  }

  /** Both searched keys are written without escapes. */
  predicate BothPlain(ms: seq<Member>) {
    (exists i | 0 <= i < |ms| :: ms[i].spelling == Quoted(Abstain))
    && exists j | 0 <= j < |ms| :: ms[j].spelling == Quoted(Claims)
  }

  /** They are, and `abstain` comes first. */
  predicate PlainInOrder(ms: seq<Member>) {
    exists i, j | 0 <= i < j < |ms| :: ms[i].spelling == Quoted(Abstain) && ms[j].spelling == Quoted(Claims)
  }

  lemma {:induction false} GetOnce(ms: seq<Member>, x: nat)
    requires KeysOnce(ms) && x < |ms|
    ensures Get(ms, ms[x].key) == Some(ms[x].value)
  {
    if x < |ms| - 1 {
      var init := ms[..|ms| - 1];
      assert init[x] == ms[x];
      GetOnce(init, x);
    }
  }

  lemma ClaimIsFree(k: Key, v: Json, known: set<Str>)
    requires BuildClaim(v, known).Some? && SingleKeys(v)
    ensures Free(k, v)
  {
    hide StringList, Strip, Name, Quoted, Free, SingleKeysIn;
    var ms := v.members;
    KeysDiffer();
    forall m | m in ms ensures FreeMember(k, m) {
      var x :| 0 <= x < |ms| && ms[x] == m;
      GetOnce(ms, x);
      assert m.key in Keys(ms);
      KeysOfClaim(m.key);
      if m.key == Codes("text") { StringIsFree(k, m.value); } else { StringListIsFree(k, m.value); }
    }
    MembersAreFree(k, v);
  }

  lemma KeysOfClaim(key: Str)
    requires key == Codes("text") || key == Codes("evidence_ids")
    ensures key in [ABSTAIN, MISSING, CLAIMS, Codes("text"), Codes("evidence_ids")]
  {
  }

  lemma StringIsFree(k: Key, v: Json)
    requires v.String?
    ensures Free(k, v)
  {
  }

  lemma MembersAreFree(k: Key, v: Json)
    requires v.Object? && forall m | m in v.members :: FreeMember(k, m)
    ensures Free(k, v)
  {
  }

  lemma {:induction false} ClaimsAreFree(k: Key, vs: seq<Json>, known: set<Str>)
    requires BuildClaims(vs, known).Some? && forall x | x in vs :: SingleKeys(x)
    ensures Free(k, Array(vs))
  {
    hide BuildClaim, SingleKeys;
    if vs != [] {
      assert vs[0] in vs;
      ClaimIsFree(k, vs[0], known);
      ClaimsAreFree(k, vs[1..], known);
      assert Free(k, Array(vs[1..]));
      assert forall x | x in vs :: x == vs[0] || x in vs[1..];
    }
  }

  lemma BoolIsFree(k: Key, v: Json)
    requires v.Bool?
    ensures Free(k, v)
  {
  }

  /** The members of an accepted draft without repeated keys, in whatever order. */
  lemma DraftMembers(ms: seq<Member>, known: set<Str>) returns (a: nat, c: nat)
    requires DraftOf(Json.Object(ms), known).Some? && SingleKeys(Json.Object(ms))
    ensures a < |ms| && c < |ms| && a != c && ms[a].key == ABSTAIN && ms[c].key == CLAIMS
    ensures var d := DraftOf(Json.Object(ms), known).value;
      ms[a].value == Bool(d.abstain) && ms[c].value.Array? && BuildClaims(ms[c].value.items, known) == Some(d.claims)
    ensures forall y | 0 <= y < |ms| && (y != a || ms[y].spelling != Quoted(Abstain)) :: FreeMember(Abstain, ms[y])
    ensures forall y | 0 <= y < |ms| && (y != c || ms[y].spelling != Quoted(Claims)) :: FreeMember(Claims, ms[y])
  {
    hide BuildClaims, StringList, FreeMember, Name, Quoted, SingleKeys;
    assert ABSTAIN in Keys(ms) && CLAIMS in Keys(ms);
    a :| a < |ms| && ms[a].key == ABSTAIN;
    c :| c < |ms| && ms[c].key == CLAIMS;
    KeysDiffer();
    assert KeysOnce(ms) by { TopKeysOnce(ms); }
    GetOnce(ms, a);
    GetOnce(ms, c);
    forall y | 0 <= y < |ms| && (y != a || ms[y].spelling != Quoted(Abstain)) ensures FreeMember(Abstain, ms[y]) {
      MemberIsFree(Abstain, ms, y, known);
    }
    forall y | 0 <= y < |ms| && (y != c || ms[y].spelling != Quoted(Claims)) ensures FreeMember(Claims, ms[y]) {
      MemberIsFree(Claims, ms, y, known);
    }
  }

  lemma TopKeysOnce(ms: seq<Member>)
    requires SingleKeys(Json.Object(ms))
    ensures KeysOnce(ms)
  {
  }

  lemma MemberIsFree(k: Key, ms: seq<Member>, y: nat, known: set<Str>)
    requires DraftOf(Json.Object(ms), known).Some? && SingleKeys(Json.Object(ms)) && y < |ms|
    requires ms[y].key != Name(k) || ms[y].spelling != Quoted(k)
    ensures FreeMember(k, ms[y])
  {
    hide DraftOf, SingleKeys, Free, Name, Quoted;
    TopKeysOnce(ms);
    GetOnce(ms, y);
    ValueIsFree(k, ms, y, known);
  }

  lemma ValueIsFree(k: Key, ms: seq<Member>, y: nat, known: set<Str>)
    requires DraftOf(Json.Object(ms), known).Some? && SingleKeys(Json.Object(ms)) && y < |ms|
    requires Get(ms, ms[y].key) == Some(ms[y].value)
    ensures Free(k, ms[y].value) && 0x22 !in ms[y].key
  {
    hide BuildClaims, StringList, Free, SingleKeys, Get;
    KeysDiffer();
    assert ms[y].key in Keys(ms);
    var keys := [ABSTAIN, MISSING, CLAIMS, Codes("text"), Codes("evidence_ids")];
    assert ABSTAIN in keys && MISSING in keys && CLAIMS in keys;
    if ms[y].key == ABSTAIN {
      BoolIsFree(k, ms[y].value);
    } else if ms[y].key == MISSING {
      StringListIsFree(k, ms[y].value);
    } else {
      InnerKeys(ms, y);
      ClaimsAreFree(k, ms[y].value.items, known);
    }
  }

  lemma InnerKeys(ms: seq<Member>, y: nat)
    requires SingleKeys(Json.Object(ms)) && y < |ms| && ms[y].value.Array?
    ensures forall x | x in ms[y].value.items :: SingleKeys(x)
  {
    hide KeysOnce;
    assert SingleKeysIn(ms[y]) && SingleKeys(ms[y].value);
  }

  // ---------------------------------------------------------------- what streams, for every order and spelling

  lemma SpelledKey(k: Key, t: string, x: nat)
    requires Loads(t).Some? && Loads(t).value.Object? && x < |Loads(t).value.members|
    requires Loads(t).value.members[x].spelling == Quoted(k)
    ensures Loads(t).value.members[x].key == Name(k)
  {
    hide Loads, ParseMembers, ParseString, ParseValue, SkipJson, Quoted, Name, MembersStart, At;
    var p := MemberAt(t, MembersStart(t), x);
    KeySpelled(k, t, p);
    LiteralKey(k, t, p);
  }

  /** A plainly spelled searched key can only be the key of the draft's own member. */
  lemma PlainAt(t: string, a: nat, c: nat)
    requires Loads(t).Some? && Loads(t).value.Object? && SingleKeys(Loads(t).value)
    requires var ms := Loads(t).value.members;
      a < |ms| && c < |ms| && a != c && ms[a].key == Name(Abstain) && ms[c].key == Name(Claims)
    ensures var ms := Loads(t).value.members;
      var both := ms[a].spelling == Quoted(Abstain) && ms[c].spelling == Quoted(Claims);
      (BothPlain(ms) <==> both) && (PlainInOrder(ms) <==> both && a < c)
  {
    hide Loads, Quoted, Name, SingleKeysIn;
    var ms := Loads(t).value.members;
    forall k, x | 0 <= x < |ms| && ms[x].spelling == Quoted(k) ensures x == if k == Abstain then a else c {
      SpelledKey(k, t, x);
    }
  }

  lemma DraftIsObject(v: Json, known: set<Str>)
    requires DraftOf(v, known).Some?
    ensures v == Json.Object(v.members) && v.members != []
  {
    assert ABSTAIN in Keys(v.members);
  }

  /** With a searched key escaped, its pattern matches nowhere. */
  lemma EscapedMisses(known: set<Str>, t: string)
    requires ParseAnswerDraft(t, known).Some? && SingleKeys(Loads(t).value)
    requires Loads(t).value.Object? && !BothPlain(Loads(t).value.members)
    ensures Search(Abstain, t).Miss? || Search(Claims, t).Miss?
  {
    hide Loads, DraftOf, SingleKeys, FreeMember, Quoted, Name, Search, KeysOnce;
    var ms := Loads(t).value.members;
    DraftIsObject(Loads(t).value, known);
    var a, c := DraftMembers(ms, known);
    KeysDiffer();
    PlainAt(t, a, c);
    var k := if ms[a].spelling != Quoted(Abstain) then Abstain else Claims;
    forall m | m in ms ensures FreeMember(k, m) {
      var y :| 0 <= y < |ms| && ms[y] == m;
      assert ms[y].spelling != Quoted(k) || y != (if k == Abstain then a else c);
    }
    ObjectHasNoHit(k, t);
  }

  /** With both spelled plainly, the patterns first match at the draft's own keys. */
  lemma PlainHits(known: set<Str>, t: string)
    requires ParseAnswerDraft(t, known).Some? && SingleKeys(Loads(t).value)
    requires Loads(t).value.Object? && BothPlain(Loads(t).value.members)
    ensures Search(Abstain, t).Hit? && Search(Claims, t).Hit?
    ensures Search(Abstain, t).value == ParseAnswerDraft(t, known).value.abstain
    ensures ClaimsBefore(known, t, Search(Claims, t).end, ParseAnswerDraft(t, known).value.claims)
    ensures DraftChunking.StreamOrder(t) <==> PlainInOrder(Loads(t).value.members)
  {
    hide Loads, DraftOf, ParseMember, ParseMembers, ParseValue, BuildClaims, SingleKeys, FreeMember, Quoted, Name,
         MembersStart, OpensLikeObject, Search, KeysOnce;
    var ms := Loads(t).value.members;
    DraftIsObject(Loads(t).value, known);
    var a, c := DraftMembers(ms, known);
    KeysDiffer();
    PlainAt(t, a, c);
    var i := MembersStart(t);
    KeyFound(Abstain, t, a);
    KeyFound(Claims, t, c);
    if a < c { MembersAscend(t, i, a, c); } else { MembersAscend(t, i, c, a); }
  }

  /** An accepted draft in which no object repeats a key, its members in any order and its keys in any spelling.
  Whatever the cutting, the reader yields nothing or exactly the claims of the parse, none if the draft abstains. It
  yields them all when both searched keys are spelled plainly and `abstain` comes first, and nothing when one of the
  two is escaped. */
  lemma StreamsDraftOrNothing(known: set<Str>, t: string, chunks: seq<string>)
    requires Flatten(chunks) == t && ParseAnswerDraft(t, known).Some? && SingleKeys(Loads(t).value)
    ensures Loads(t).value.Object?
    ensures var d := ParseAnswerDraft(t, known).value; var ms := Loads(t).value.members;
      var all := if d.abstain then [] else d.claims;
      && FeedAll(known, chunks).1 in {[], all}
      && (PlainInOrder(ms) ==> FeedAll(known, chunks).1 == all)
      && (!BothPlain(ms) ==> FeedAll(known, chunks).1 == [])
  {
    hide Loads, DraftOf, Search, ReadFrom, ParseValue, BuildClaims, FeedAll, SingleKeys, OpensLikeObject, Quoted;
    DraftIsObject(Loads(t).value, known);
    DraftChunking.AllOrNothing(known, chunks);
    WholeDraft(known, t);
    if PlainInOrder(Loads(t).value.members) {
      PlainHits(known, t);
      if !ParseAnswerDraft(t, known).value.abstain && Whole(known, t) != [] {
        DraftChunking.StreamOrderIsEnough(known, t, chunks);
      }
    }
  }

  /** What one feed of such a draft yields. */
  lemma WholeDraft(known: set<Str>, t: string)
    requires ParseAnswerDraft(t, known).Some? && SingleKeys(Loads(t).value)
    ensures Loads(t).value.Object?
    ensures var d := ParseAnswerDraft(t, known).value;
      Whole(known, t) == if d.abstain || !BothPlain(Loads(t).value.members) then [] else d.claims
  {
    hide Loads, DraftOf, Search, ReadFrom, ParseValue, BuildClaims, SingleKeys, OpensLikeObject, BothPlain;
    DraftIsObject(Loads(t).value, known);
    assert "" + t == t;
    if BothPlain(Loads(t).value.members) {
      PlainHits(known, t);
      ReadsArray(known, t, Search(Claims, t).end - 1);
    } else {
      EscapedMisses(known, t);
    }
  }

  /** If there is something to stream, every cutting streams all of it exactly when both searched keys are spelled
  plainly and `abstain` comes before `claims`. */
  lemma StreamsIffPlainInOrder(known: set<Str>, t: string)
    requires ParseAnswerDraft(t, known).Some? && SingleKeys(Loads(t).value)
    requires !ParseAnswerDraft(t, known).value.abstain && ParseAnswerDraft(t, known).value.claims != []
    ensures Loads(t).value.Object?
    ensures (forall chunks | Flatten(chunks) == t ::
               FeedAll(known, chunks).1 == ParseAnswerDraft(t, known).value.claims)
            <==> PlainInOrder(Loads(t).value.members)
  {
    hide Loads, DraftOf, Search, ReadFrom, ParseValue, BuildClaims, FeedAll, SingleKeys, Whole, Quoted,
         DraftChunking.StreamOrder, Flatten;
    DraftIsObject(Loads(t).value, known);
    WholeDraft(known, t);
    if BothPlain(Loads(t).value.members) {
      PlainHits(known, t);
      DraftChunking.ChunkingNeverMattersIff(known, t);
    } else {
      OneChunk(t);
      StreamsDraftOrNothing(known, t, [t]);
    }
  }

  lemma OneChunk(t: string)
    ensures Flatten([t]) == t
  {
    assert [t][..0] == [] && [] + t == t;
  }
}
