/** Printing drafts as JSON, and reading them back.

Strings are printed as `json.dumps` prints them. Keys are printed in whatever spelling they carry, and a number,
whose value the model does not keep, as `NaN`. */
module DraftPrinter {
  import opened Text
  import opened KeySearch
  import opened Json
  import opened JsonStrings
  import opened AnswerDraft
  import opened DraftReader
  import DraftAgreement

  // ---------------------------------------------------------------- strings

  function HexChar(d: nat): char
    requires d < 16
  {
    if d < 10 then ('0' as int + d) as char else ('a' as int + (d - 10)) as char
  }

  function PrintHex(u: int): string
    requires 0 <= u < 0x10000
  {
    var low, byte := u % 0x1000, u % 0x1000 % 0x100;
    ['\\', 'u', HexChar(u / 0x1000), HexChar(low / 0x100), HexChar(byte / 0x10), HexChar(byte % 0x10)]
  }

  function PrintPoint(c: int): string
    requires 0 <= c < 0x110000
  {
    if 0x20 <= c < 0x7f && c != 0x22 && c != 0x5c then [c as char]
    else if Letter(c).Some? then ['\\', Letter(c).value]
    else if c < 0x10000 then PrintHex(c)
    else PrintHex(High(c)) + PrintHex(Low(c))
  }

  function PrintPoints(s: Str): (ws: seq<string>)
    requires Encodable(s)
    ensures |ws| == |s|
  {
    if s == [] then [] else [PrintPoint(s[0])] + PrintPoints(s[1..])
  }

  function PrintString(s: Str): string
    requires Encodable(s)
  {
    InQuotes(Cat(PrintPoints(s)))
  }

  lemma HexWrites(u: int)
    requires 0 <= u < 0x10000
    ensures WritesHex(PrintHex(u), u)
  {
  }

  lemma PointWrites(c: int)
    requires 0 <= c < 0x110000
    ensures WritesPoint(PrintPoint(c), c)
  {
    hide PrintHex, WritesHex;
    if c < 0x10000 {
      HexWrites(c);
    } else {
      HexWrites(High(c));
      HexWrites(Low(c));
      HexHead();
      var w := PrintPoint(c);
      assert w[..6] == PrintHex(High(c)) && w[6..] == PrintHex(Low(c));
    }
  }

  lemma {:induction false} PointsWrite(s: Str)
    requires Encodable(s)
    ensures Writes(PrintPoints(s), s)
  {
    hide PrintPoint, WritesPoint;
    if s != [] {
      PointsWrite(s[1..]);
      PointWrites(s[0]);
    }
  }

  lemma PrintedString(t: string, i: nat, s: Str)
    requires Encodable(s) && At(t, i, PrintString(s))
    ensures ParseString(t, i) == Good(s, i + |PrintString(s)|)
  {
    hide At, PrintPoints, Cat, ParseString;
    PointsWrite(s);
    SpellingRead(t, i, PrintPoints(s), s);
  }

  /** Wherever `w` stands it is read as the string `key`. */
  ghost predicate Spells(w: string, key: Str) {
    forall t, i: nat | At(t, i, w) :: ParseString(t, i) == Good(key, i + |w|)
  }

  // ---------------------------------------------------------------- values

  ghost predicate Printable(v: Json) {
    match v
    case String(s) => Encodable(s)
    case Array(vs) => forall x | x in vs :: Printable(x)
    case Object(ms) => forall m | m in ms :: PrintableMember(m)
    case _ => true
  }

  ghost predicate PrintableMember(m: Member) {
    Spells(m.spelling, m.key) && Printable(m.value)
  }

  ghost function Print(v: Json): (w: string)
    requires Printable(v)
    ensures |w| > 0 && !IsJsonSpace(w[0]) && w[0] != ']'
    decreases v
  {
    match v
    case Null => "null"
    case Number => "NaN"
    case Bool(b) => if b then "true" else "false"
    case String(s) => PrintString(s)
    case Array(vs) => "[" + if vs == [] then "]" else PrintElements(vs)
    case Object(ms) => "{" + if ms == [] then "}" else PrintMembers(ms)
  }

  /** With the closing bracket. */
  ghost function PrintElements(vs: seq<Json>): string
    requires vs != [] && forall x | x in vs :: Printable(x)
    decreases vs
  {
    Print(vs[0]) + if |vs| == 1 then "]" else "," + PrintElements(vs[1..])
  }

  /** With the closing brace. */
  ghost function PrintMembers(ms: seq<Member>): string
    requires ms != [] && forall m | m in ms :: PrintableMember(m)
    decreases ms
  {
    PrintMember(ms[0]) + if |ms| == 1 then "}" else "," + PrintMembers(ms[1..])
  }

  ghost function PrintMember(m: Member): string
    requires PrintableMember(m)
    decreases m
  {
    m.spelling + (":" + Print(m.value))
  }

  lemma {:induction false} PrintedValue(t: string, i: nat, v: Json)
    requires Printable(v) && At(t, i, Print(v))
    ensures i <= |t| && ParseValue(t, i) == Good(v, i + |Print(v)|)
    decreases v
  {
    hide At, PrintString, ParseString, PrintElements, PrintMembers, Spells, ParseElements, ParseMembers, ParseAtom;
    AtStarts(t, i, Print(v));
    match v {
      case String(s) => PrintedString(t, i, s);
      case Array(vs) =>
        AtSplit(t, i, "[", if vs == [] then "]" else PrintElements(vs));
        if vs == [] {
          AtOne(t, i + 1, ']');
        } else {
          PrintedElements(t, i + 1, vs);
        }
      case Object(ms) =>
        AtSplit(t, i, "{", if ms == [] then "}" else PrintMembers(ms));
        if ms == [] {
          AtOne(t, i + 1, '}');
        } else {
          PrintedMembers(t, i + 1, ms);
        }
      case _ => PrintedAtom(t, i, v);
    }
  }

  lemma PrintedAtom(t: string, i: nat, v: Json)
    requires v.Null? || v.Bool? || v.Number?
    requires At(t, i, Print(v))
    ensures i <= |t| && ParseAtom(t, i) == Good(v, i + |Print(v)|)
  {
    hide NumberEnd, IsNumber, At;
    AtStarts(t, i, Print(v));
    if At(t, i, "null") { AtStarts(t, i, "null"); }
    if At(t, i, "true") { AtStarts(t, i, "true"); }
    if At(t, i, "false") { AtStarts(t, i, "false"); }
    AtSplit(t, i, Print(v), "");
    assert Print(v) + "" == Print(v);
  }

  lemma {:induction false} PrintedElements(t: string, i: nat, vs: seq<Json>)
    requires vs != [] && (forall x | x in vs :: Printable(x)) && At(t, i, PrintElements(vs))
    ensures i < |t| && !IsJsonSpace(t[i]) && t[i] != ']'
    ensures ParseElements(t, i) == Good(vs, i + |PrintElements(vs)|)
    decreases vs
  {
    hide At, Print, Printable, ParseValue, ParseElements;
    var w := Print(vs[0]);
    var rest := if |vs| == 1 then "]" else "," + PrintElements(vs[1..]);
    AtSplit(t, i, w, rest);
    AtStarts(t, i, w);
    PrintedValue(t, i, vs[0]);
    var e := i + |w|;
    AtStarts(t, e, rest);
    if |vs| > 1 {
      AtSplit(t, e, ",", PrintElements(vs[1..]));
      PrintedElements(t, e + 1, vs[1..]);
    }
    ElementsStep(t, i, vs[0], e);
    assert vs == if |vs| == 1 then [vs[0]] else [vs[0]] + vs[1..];
  }

  lemma ElementsStep(t: string, i: nat, v: Json, e: nat)
    requires i <= |t| && ParseValue(t, i) == Good(v, e) && e < |t|
    ensures t[e] == ']' ==> ParseElements(t, i) == Good([v], e + 1)
    ensures t[e] == ',' && e + 1 < |t| && !IsJsonSpace(t[e + 1]) && ParseElements(t, e + 1).Good? ==>
      ParseElements(t, i) == Good([v] + ParseElements(t, e + 1).value, ParseElements(t, e + 1).end)
  {
    hide ParseValue;
  }

  lemma {:induction false} PrintedMembers(t: string, i: nat, ms: seq<Member>)
    requires ms != [] && (forall m | m in ms :: PrintableMember(m)) && At(t, i, PrintMembers(ms))
    ensures i < |t| && t[i] == '"'
    ensures ParseMembers(t, i) == Good(ms, i + |PrintMembers(ms)|)
    decreases ms
  {
    hide At, PrintMember, PrintableMember, ParseMember, ParseMembers;
    var w := PrintMember(ms[0]);
    var rest := if |ms| == 1 then "}" else "," + PrintMembers(ms[1..]);
    AtSplit(t, i, w, rest);
    PrintedMember(t, i, ms[0]);
    var e := i + |w|;
    AtStarts(t, e, rest);
    if |ms| > 1 {
      AtSplit(t, e, ",", PrintMembers(ms[1..]));
      PrintedMembers(t, e + 1, ms[1..]);
    }
    MembersStep(t, i, ms[0], e);
    assert ms == if |ms| == 1 then [ms[0]] else [ms[0]] + ms[1..];
  }

  lemma MembersStep(t: string, i: nat, m: Member, e: nat)
    requires i <= |t| && ParseMember(t, i) == Good(m, e) && e < |t|
    ensures t[e] == '}' ==> ParseMembers(t, i) == Good([m], e + 1)
    ensures t[e] == ',' && e + 1 < |t| && !IsJsonSpace(t[e + 1]) && ParseMembers(t, e + 1).Good? ==>
      ParseMembers(t, i) == Good([m] + ParseMembers(t, e + 1).value, ParseMembers(t, e + 1).end)
  {
    hide ParseMember;
  }

  lemma {:induction false} PrintedMember(t: string, i: nat, m: Member)
    requires PrintableMember(m) && At(t, i, PrintMember(m))
    ensures i < |t| && t[i] == '"' && ParseMember(t, i) == Good(m, i + |PrintMember(m)|)
    decreases m
  {
    hide At, Print, Printable, ParseValue, ParseString;
    var w := Print(m.value);
    AtSplit(t, i, m.spelling, ":" + w);
    var c := i + |m.spelling|;
    AtSplit(t, c, ":", w);
    AtOne(t, c, ':');
    AtStarts(t, c + 1, w);
    PrintedValue(t, c + 1, m.value);
    SliceIs(t, i, m.spelling);
  }

  /** What is printed is read back. */
  lemma PrintRoundTrip(v: Json)
    requires Printable(v)
    ensures Loads(Print(v)) == Some(v)
  {
    hide ParseValue;
    var t := Print(v);
    assert At(t, 0, t);
    PrintedValue(t, 0, v);
  }

  // ---------------------------------------------------------------- drafts

  ghost predicate PrintableClaim(c: Claim, known: set<Str>) {
    && Encodable(c.text) && Strip(c.text) == c.text != []
    && c.evidenceIds != [] && forall id | id in c.evidenceIds :: id in known && Encodable(id)
  }

  /** A draft as the model may send it: stripped claim texts, known evidence. */
  ghost predicate PrintableDraft(d: Draft, known: set<Str>) {
    (forall c | c in d.claims :: PrintableClaim(c, known)) && forall s | s in d.missing :: Encodable(s)
  }

  function Strings(ss: seq<Str>): Json {
    Array(seq(|ss|, i requires 0 <= i < |ss| => String(ss[i])))
  }

  /** A member with its key written plainly; the keys of a draft are plain ASCII. */
  function Plain(key: string, v: Json): Member {
    Member(InQuotes(key), Codes(key), v)
  }

  function ClaimJson(c: Claim): Json {
    Json.Object([Plain("text", String(c.text)), Plain("evidence_ids", Strings(c.evidenceIds))])
  }

  function ClaimsJson(cs: seq<Claim>): seq<Json> {
    if cs == [] then [] else [ClaimJson(cs[0])] + ClaimsJson(cs[1..])
  }

  /** The draft in schema order, with the two keys that the reader searches spelled as given. */
  function DraftJson(d: Draft, abstain: string, claims: string): Json {
    Json.Object([Member(abstain, ABSTAIN, Bool(d.abstain)), Plain("missing_information", Strings(d.missing)),
                 Member(claims, CLAIMS, Array(ClaimsJson(d.claims)))])
  }

  // ---------------------------------------------------------------- spelling keys

  predicate IsPlain(w: string) {
    forall i | 0 <= i < |w| :: 0x20 <= w[i] as int < 0x7f && w[i] != '"' && w[i] != '\\'
  }

  /** Any legal spelling of a key spells it. */
  lemma WritesSpells(ws: seq<string>, key: Str)
    requires Writes(ws, key)
    ensures Spells(InQuotes(Cat(ws)), key)
  {
    hide At, Cat, ParseString, Writes;
    forall t, i: nat | At(t, i, InQuotes(Cat(ws))) ensures ParseString(t, i) == Good(key, i + |InQuotes(Cat(ws))|) {
      SpellingRead(t, i, ws, key);
    }
  }

  function Singles(w: string): (ws: seq<string>)
    ensures |ws| == |w|
  {
    if w == "" then [] else [[w[0]]] + Singles(w[1..])
  }

  lemma {:induction false} PlainWrites(w: string)
    requires IsPlain(w)
    ensures Writes(Singles(w), Codes(w)) && Cat(Singles(w)) == w
  {
    if w != "" {
      PlainWrites(w[1..]);
      assert Codes(w) == [w[0] as int] + Codes(w[1..]);
      Prepended([w[0]], w[0] as int, Singles(w[1..]), Codes(w[1..]));
      assert [w[0]] + w[1..] == w;
    }
  }

  lemma PlainSpells(w: string)
    requires IsPlain(w)
    ensures Spells(InQuotes(w), Codes(w))
  {
    hide Spells;
    PlainWrites(w);
    WritesSpells(Singles(w), Codes(w));
  }

  /** A key with its first letter escaped; `digit` is the last hexadecimal digit of that letter. */
  function EscapedFirst(digit: char, rest: string): string {
    InQuotes(("\\u006" + [digit]) + rest)
  }

  const ESCAPED_ABSTAIN := EscapedFirst('1', "bstain")
  const ESCAPED_CLAIMS := EscapedFirst('3', "laims")

  lemma EscapedFirstSpells(digit: char, d: nat, rest: string)
    requires IsHexOf(digit, d) && d < 16 && IsPlain(rest)
    ensures Spells(EscapedFirst(digit, rest), [0x60 + d] + Codes(rest))
  {
    hide Spells, IsHexOf;
    var w := "\\u006" + [digit];
    PlainWrites(rest);
    SixIsHex();
    assert WritesHex(w, 0x60 + d);
    Prepended(w, 0x60 + d, Singles(rest), Codes(rest));
    WritesSpells([w] + Singles(rest), [0x60 + d] + Codes(rest));
  }

  lemma SixIsHex()
    ensures IsHexOf('0', 0) && IsHexOf('6', 6)
  {
  }

  /** Both searched keys can be spelled with an escape. */
  lemma EscapedSpells()
    ensures Spells(ESCAPED_ABSTAIN, ABSTAIN) && ESCAPED_ABSTAIN != Quoted(Abstain)
    ensures Spells(ESCAPED_CLAIMS, CLAIMS) && ESCAPED_CLAIMS != Quoted(Claims)
  {
    hide Spells;
    EscapedFirstSpells('1', 1, "bstain");
    EscapedFirstSpells('3', 3, "laims");
    assert ABSTAIN == [0x61] + Codes("bstain") && CLAIMS == [0x63] + Codes("laims");
    assert ESCAPED_ABSTAIN[1] == '\\' && Quoted(Abstain)[1] == 'a';
    assert ESCAPED_CLAIMS[1] == '\\' && Quoted(Claims)[1] == 'c';
  }

  lemma QuotedSpells()
    ensures Spells(Quoted(Abstain), ABSTAIN) && Spells(Quoted(Claims), CLAIMS)
  {
    hide Spells;
    PlainSpells("abstain");
    PlainSpells("claims");
    assert Quoted(Abstain) == InQuotes("abstain") && Quoted(Claims) == InQuotes("claims");
  }

  // ---------------------------------------------------------------- printed drafts

  lemma StringsRead(ss: seq<Str>)
    requires forall s | s in ss :: Encodable(s)
    ensures Printable(Strings(ss)) && StringList(Strings(ss)) == Some(ss) && DraftAgreement.SingleKeys(Strings(ss))
  {
    hide Encodable;
    var v := Strings(ss);
    forall x | x in v.items ensures x.String? && Printable(x) && DraftAgreement.SingleKeys(x) {
      var i :| 0 <= i < |ss| && v.items[i] == x;
      assert ss[i] in ss;
    }
    assert StringList(v).value == ss;
  }

  lemma ClaimRead(c: Claim, known: set<Str>)
    requires PrintableClaim(c, known)
    ensures Printable(ClaimJson(c)) && BuildClaim(ClaimJson(c), known) == Some(c)
    ensures DraftAgreement.SingleKeys(ClaimJson(c))
  {
    hide Encodable, Strip, Strings, StringList, Spells, InQuotes, Get;
    var ms := ClaimJson(c).members;
    StringsRead(c.evidenceIds);
    TwoKeys();
    DraftAgreement.GetOnce(ms, 0);
    DraftAgreement.GetOnce(ms, 1);
    assert ms == [ms[0], ms[1]];
    assert Keys(ms) == {ms[0].key, ms[1].key};
    assert PrintableMember(ms[0]) && PrintableMember(ms[1]);
    assert DraftAgreement.SingleKeysIn(ms[0]) && DraftAgreement.SingleKeysIn(ms[1]);
    assert c.evidenceIds != [];
  }

  lemma TwoKeys()
    ensures Codes("text") != Codes("evidence_ids")
    ensures Spells(InQuotes("text"), Codes("text")) && Spells(InQuotes("evidence_ids"), Codes("evidence_ids"))
    ensures Spells(InQuotes("missing_information"), MISSING)
  {
    hide Spells, InQuotes;
    assert |Codes("text")| == 4 && |Codes("evidence_ids")| == 12;
    PlainSpells("text");
    PlainSpells("evidence_ids");
    PlainSpells("missing_information");
  }

  lemma {:induction false} ClaimsRead(cs: seq<Claim>, known: set<Str>)
    requires forall c | c in cs :: PrintableClaim(c, known)
    ensures BuildClaims(ClaimsJson(cs), known) == Some(cs)
    ensures forall x | x in ClaimsJson(cs) :: Printable(x) && DraftAgreement.SingleKeys(x)
  {
    hide PrintableClaim, BuildClaim, Printable, DraftAgreement.SingleKeys, ClaimJson;
    if cs != [] {
      ClaimRead(cs[0], known);
      ClaimsRead(cs[1..], known);
      var vs := ClaimsJson(cs);
      assert vs[1..] == ClaimsJson(cs[1..]);
      assert cs == [cs[0]] + cs[1..];
    }
  }

  lemma ArrayOf(vs: seq<Json>)
    requires forall x | x in vs :: Printable(x) && DraftAgreement.SingleKeys(x)
    ensures Printable(Array(vs)) && DraftAgreement.SingleKeys(Array(vs))
  {
  }

  lemma DraftRead(d: Draft, known: set<Str>, abstain: string, claims: string)
    requires PrintableDraft(d, known) && Spells(abstain, ABSTAIN) && Spells(claims, CLAIMS)
    ensures Printable(DraftJson(d, abstain, claims)) && DraftOf(DraftJson(d, abstain, claims), known) == Some(d)
    ensures DraftAgreement.SingleKeys(DraftJson(d, abstain, claims))
  {
    hide PrintableClaim, Encodable, Spells, Strings, StringList, BuildClaims, ClaimsJson, InQuotes, Printable,
         DraftAgreement.SingleKeys, DraftAgreement.KeysOnce;
    var v := DraftJson(d, abstain, claims);
    var ms := v.members;
    StringsRead(d.missing);
    ClaimsRead(d.claims, known);
    ArrayOf(ClaimsJson(d.claims));
    TwoKeys();
    ThreeKeys(ms);
    assert ms == [ms[0], ms[1], ms[2]];
    BoolOf(d.abstain);
    ObjectOf(ms);
  }

  lemma BoolOf(b: bool)
    ensures Printable(Bool(b)) && DraftAgreement.SingleKeys(Bool(b))
  {
  }

  lemma ObjectOf(ms: seq<Member>)
    requires DraftAgreement.KeysOnce(ms)
    requires forall m | m in ms :: Spells(m.spelling, m.key) && Printable(m.value) && DraftAgreement.SingleKeys(m.value)
    ensures Printable(Json.Object(ms)) && DraftAgreement.SingleKeys(Json.Object(ms))
  {
    hide Spells;
    DraftAgreement.MembersOnce(ms);
    forall m | m in ms ensures PrintableMember(m) { assert Printable(m.value); }
  }

  lemma ThreeKeys(ms: seq<Member>)
    requires |ms| == 3 && ms[0].key == ABSTAIN && ms[1].key == MISSING && ms[2].key == CLAIMS
    ensures Keys(ms) == {CLAIMS, MISSING, ABSTAIN} && DraftAgreement.KeysOnce(ms)
    ensures Get(ms, ABSTAIN) == Some(ms[0].value) && Get(ms, MISSING) == Some(ms[1].value)
    ensures Get(ms, CLAIMS) == Some(ms[2].value)
  {
    assert |ABSTAIN| == 7 && |MISSING| == 19 && |CLAIMS| == 6;
    assert ms == [ms[0], ms[1], ms[2]];
    assert ms[..2] == [ms[0], ms[1]] && ms[..2][..1] == [ms[0]];
    assert Get(ms[..2][..1], ABSTAIN) == Some(ms[0].value);
    assert Get(ms[..2], ABSTAIN) == Some(ms[0].value) && Get(ms[..2], MISSING) == Some(ms[1].value);
  }

  ghost function PrintDraft(d: Draft, known: set<Str>, abstain: string, claims: string): string
    requires PrintableDraft(d, known) && Spells(abstain, ABSTAIN) && Spells(claims, CLAIMS)
  {
    DraftRead(d, known, abstain, claims);
    Print(DraftJson(d, abstain, claims))
  }

  /** Every draft that a model may send, printed in schema order with any spelling of its two searched keys, is
  parsed to that same draft; and however its text is cut, if it does not abstain, all of its claims stream out when
  both spellings are plain, and none when one is not. */
  lemma PrintedDraft(d: Draft, known: set<Str>, abstain: string, claims: string, chunks: seq<string>)
    requires PrintableDraft(d, known) && Spells(abstain, ABSTAIN) && Spells(claims, CLAIMS)
    requires Flatten(chunks) == PrintDraft(d, known, abstain, claims)
    ensures ParseAnswerDraft(Flatten(chunks), known) == Some(d)
    ensures !d.abstain ==>
      FeedAll(known, chunks).1 == if abstain == Quoted(Abstain) && claims == Quoted(Claims) then d.claims else []
  {
    hide PrintableDraft, Spells, DraftOf, Loads, Print, Printable, FeedAll, Quoted, DraftAgreement.SingleKeys,
         DraftAgreement.BothPlain, DraftAgreement.PlainInOrder;
    var v, t := DraftJson(d, abstain, claims), Flatten(chunks);
    DraftRead(d, known, abstain, claims);
    PrintRoundTrip(v);
    DraftAgreement.StreamsDraftOrNothing(known, t, chunks);
    DraftAgreement.KeysDiffer();
    DraftAgreement.PlainAt(t, 0, 2);
  }

  /** So a draft with claims that is sent with one escaped key is accepted, and nothing of it streams. */
  lemma EscapedKeysStreamNothing(d: Draft, known: set<Str>) returns (t: string)
    requires PrintableDraft(d, known) && !d.abstain
    ensures ParseAnswerDraft(t, known) == Some(d)
    ensures forall chunks | Flatten(chunks) == t :: FeedAll(known, chunks).1 == []
  {
    hide PrintableDraft, Spells, ParseAnswerDraft, FeedAll, PrintDraft;
    EscapedSpells();
    QuotedSpells();
    t := PrintDraft(d, known, ESCAPED_ABSTAIN, Quoted(Claims));
    forall chunks | Flatten(chunks) == t ensures FeedAll(known, chunks).1 == [] {
      PrintedDraft(d, known, ESCAPED_ABSTAIN, Quoted(Claims), chunks);
    }
    assert [t][..0] == [] && Flatten([t]) == [] + t;
    PrintedDraft(d, known, ESCAPED_ABSTAIN, Quoted(Claims), [t]);
  }
}
