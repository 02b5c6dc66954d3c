/** Drafts that repeat a key.

`json.loads` lets a later member replace an earlier one, and the reader sees the earlier one first. So it can
show claims that the whole-text parse discards, which it is meant never to do. */
module RepeatedKeys {
  import opened Text
  import opened KeySearch
  import opened Json
  import opened JsonStrings
  import opened AnswerDraft
  import opened DraftReader
  import opened DraftPrinter
  import opened DraftAgreement
  import DraftChunking

  // ---------------------------------------------------------------- text before a claims key

  /** No quote is followed by a `c`, and none stands last, so no claims key starts here. */
  predicate Calm(w: string) {
    (w != "" ==> w[|w| - 1] != '"') && forall q | 0 <= q < |w| - 1 && w[q] == '"' :: w[q + 1] != 'c'
  }

  lemma CalmJoin(a: string, b: string)
    requires Calm(a) && Calm(b)
    ensures Calm(a + b)
  {
    var w := a + b;
    forall q | 0 <= q < |w| - 1 && w[q] == '"' ensures w[q + 1] != 'c' {
      if q < |a| { assert a[q] == '"' && q < |a| - 1 && w[q + 1] == a[q + 1]; }
      else { assert b[q - |a|] == '"' && w[q + 1] == b[q - |a| + 1]; }
    }
  }

  lemma CalmMisses(t: string, w: string)
    requires Calm(w) && At(t, 0, w)
    ensures forall q | 0 <= q < |w| :: HitAt(Claims, t, q).Miss?
  {
    hide HitAt;
    SliceIs(t, 0, w);
    assert forall q | 0 <= q < |w| :: t[q] == w[q] by { assert t[0..|w|] == w; }
    forall q | 0 <= q < |w| ensures HitAt(Claims, t, q).Miss? {
      if HitAt(Claims, t, q).Hit? { KeyStarts(t, q); }
    }
  }

  lemma KeyStarts(t: string, q: nat)
    requires HitAt(Claims, t, q).Hit?
    ensures q + 1 < |t| && t[q] == '"' && t[q + 1] == 'c'
  {
    var k := Quoted(Claims);
    assert t[q + 0] == k[0] && t[q + 1] == k[1];
  }

  lemma ClaimsOpen(t: string, p: nat)
    requires At(t, p, "\"claims\":[")
    ensures HitAt(Claims, t, p) == Hit(p + 10, false)
  {
    hide SkipSpaces;
    var w := "\"claims\":[";
    assert w == Quoted(Claims) + ":[" && ":[" == ":" + "[";
    AtSplit(t, p, Quoted(Claims), ":[");
    AtSplit(t, p + 8, ":", "[");
    AtOne(t, p + 8, ':');
    AtOne(t, p + 9, '[');
    NoSkip(t, p + 8);
    NoSkip(t, p + 9);
  }

  lemma NoSkip(t: string, i: nat)
    requires i < |t| && !IsSpace(t[i])
    ensures SkipSpaces(t, i) == i
  {
  }

  lemma PrintedStart(v: Json)
    requires Printable(v) && v.Object? && v.members != []
    ensures var t := Print(v); var m := v.members[0];
      && Loads(t) == Some(v) && PrintableMember(m)
      && MembersStart(t) == 1 && ParseMember(t, 1) == Good(m, 1 + |PrintMember(m)|)
  {
    hide ParseMember, ParseMembers, Print, PrintMember, At, PrintableMember;
    var t, ms := Print(v), v.members;
    assert At(t, 0, t) by { AtSelf(t); }
    PrintRoundTrip(v);
    PrintOpens(v);
    AtSplit(t, 0, "{", PrintMembers(ms));
    AtSplit(t, 1, PrintMember(ms[0]), if |ms| == 1 then "}" else "," + PrintMembers(ms[1..]));
    PrintedMember(t, 1, ms[0]);
    AtOne(t, 0, '{');
    NoJsonSkip(t, 0);
    NoJsonSkip(t, 1);
  }

  lemma PrintOpens(v: Json)
    requires Printable(v) && v.Object? && v.members != []
    ensures Print(v) == "{" + PrintMembers(v.members) && forall m | m in v.members :: PrintableMember(m)
  {
  }

  lemma NoJsonSkip(t: string, i: nat)
    requires i < |t| && !IsJsonSpace(t[i])
    ensures SkipJson(t, i) == i
  {
  }

  function ClaimsArray(c: Claim): Json {
    Array([ClaimJson(c)])
  }

  /** The text of a claims member. */
  ghost function ClaimsText(c: Claim): string
    requires Printable(ClaimsArray(c))
  {
    "\"claims\":" + Print(ClaimsArray(c))
  }

  /** The text holds `w`, and no claims key starts before it. */
  ghost predicate Holds(u: string, w: string) {
    exists before, after :: Calm(before) && u == before + (w + after)
  }

  lemma HoldsWithin(before: string, u: string, after: string, w: string)
    requires Calm(before) && Holds(u, w)
    ensures Holds(before + (u + after), w)
  {
    hide Calm;
    var b, a :| Calm(b) && u == b + (w + a);
    CalmJoin(before, b);
    assert before + (u + after) == (before + b) + (w + (a + after));
  }

  /** A draft in which, before any other place that looks like it, something is written like the claims array of `c`:
  whatever the draft means, `c` streams. */
  lemma StreamsWhatComesFirst(known: set<Str>, v: Json, c: Claim, chunks: seq<string>)
    requires PrintableClaim(c, known) && Printable(ClaimsArray(c))
    requires Printable(v) && v.Object? && |v.members| > 1 && PrintableMembers(v.members[1..])
    requires v.members[0] == Plain("abstain", Bool(false)) && Holds(PrintMembers(v.members[1..]), ClaimsText(c))
    requires Flatten(chunks) == Print(v)
    ensures FeedAll(known, chunks).1 == [c]
  {
    hide Printable, PrintableClaim, Loads, ParseValue, ReadFrom, FeedAll, BuildClaim, ClaimJson, Search,
         OpensLikeObject, Flatten, Holds, Print, PrintMembers, BuildClaims;
    var t := Print(v);
    var e := OpeningOf(known, v, c);
    ClaimRead(c, known);
    OneBuilt(ClaimJson(c), c, known);
    ReadsArray(known, t, e);
    WholeIs(known, t, [c]);
    DraftChunking.StreamOrderIsEnough(known, t, chunks);
  }

  lemma WholeIs(known: set<Str>, t: string, cs: seq<Claim>)
    requires Search(Abstain, t).Hit? && !Search(Abstain, t).value && Search(Claims, t).Hit?
    requires Search(Claims, t).end <= |t| && ReadFrom(known, t, Search(Claims, t).end).claims == cs
    ensures Whole(known, t) == cs
  {
    hide Search, ReadFrom;
    assert "" + t == t;
  }

  ghost predicate PrintableMembers(ms: seq<Member>) {
    forall m | m in ms :: PrintableMember(m)
  }

  /** Where its bracket is. */
  lemma OpeningOf(known: set<Str>, v: Json, c: Claim) returns (e: nat)
    requires Printable(ClaimsArray(c))
    requires Printable(v) && v.Object? && |v.members| > 1 && PrintableMembers(v.members[1..])
    requires v.members[0] == Plain("abstain", Bool(false)) && Holds(PrintMembers(v.members[1..]), ClaimsText(c))
    ensures var t := Print(v);
      && DraftChunking.StreamOrder(t) && !Search(Abstain, t).value && Search(Claims, t).end == e + 1 <= |t|
      && t[e] == '[' && ParseValue(t, e).Good? && ParseValue(t, e).value == ClaimsArray(c)
  {
    hide Print, Printable, PrintMember, PrintMembers, At, Loads, ParseMember, ParseValue, MembersStart, ClaimsArray,
         Calm, Search, OpensLikeObject;
    var t := Print(v);
    var w, before, after := HeadAndRest(v, c);
    e := |before| + 9;
    AtSelf(t);
    AtSplit(t, 0, before, "\"claims\":" + (w + after));
    AtSplit(t, |before|, "\"claims\":", w + after);
    AtSplit(t, e, w, after);
    PrintedStart(v);
    AbstainSpelled();
    KeyFound(Abstain, t, 0);
    ArrayOpens(c);
    FirstOpening(t, before, w);
    PrintedValue(t, e, ClaimsArray(c));
  }

  lemma AbstainSpelled()
    ensures InQuotes("abstain") == Quoted(Abstain)
  {
  }

  lemma HeadAndRest(v: Json, c: Claim) returns (w: string, before: string, after: string)
    requires Printable(ClaimsArray(c))
    requires Printable(v) && v.Object? && |v.members| > 1 && PrintableMembers(v.members[1..])
    requires v.members[0] == Plain("abstain", Bool(false)) && Holds(PrintMembers(v.members[1..]), ClaimsText(c))
    ensures PrintableMember(v.members[0]) && w == Print(ClaimsArray(c)) && Calm(before)
    ensures 1 + |PrintMember(v.members[0])| <= |before|
    ensures Print(v) == before + ("\"claims\":" + (w + after))
  {
    hide Print, Printable, PrintMember, PrintMembers, Calm, ClaimsArray, PrintableMember;
    var ms := v.members;
    w := Print(ClaimsArray(c));
    var b, a :| Calm(b) && PrintMembers(ms[1..]) == b + (ClaimsText(c) + a);
    PrintOpens(v);
    MembersPrint(ms);
    AbstainIsCalm(ms[0]);
    var head := "{" + (PrintMember(ms[0]) + ",");
    CalmJoin(head, b);
    before, after := head + b, a;
    assert Print(v) == head + (b + (ClaimsText(c) + a));
    Reassociate(head, b, "\"claims\":", w, a);
  }

  lemma Reassociate(a: string, b: string, c: string, d: string, e: string)
    ensures a + (b + ((c + d) + e)) == (a + b) + (c + (d + e))
  {
  }

  lemma MembersPrint(ms: seq<Member>)
    requires |ms| > 1 && PrintableMembers(ms)
    ensures PrintMembers(ms) == PrintMember(ms[0]) + ("," + PrintMembers(ms[1..]))
  {
    hide PrintMember;
  }

  lemma AbstainIsCalm(m: Member)
    requires m == Plain("abstain", Bool(false)) && PrintableMember(m)
    ensures Calm("{" + (PrintMember(m) + ","))
  {
    hide Spells;
    assert "{" + (PrintMember(m) + ",") == "{\"abstain\":false,";
  }

  lemma ArrayOpens(c: Claim)
    requires Printable(ClaimsArray(c))
    ensures Print(ClaimsArray(c))[0] == '['
  {
  }

  lemma FirstOpening(t: string, before: string, w: string)
    requires Calm(before) && At(t, 0, before) && At(t, |before|, "\"claims\":") && At(t, |before| + 9, w)
    requires w != "" && w[0] == '['
    ensures Search(Claims, t) == Hit(|before| + 10, false) && |before| + 10 <= |t| && t[|before| + 9] == '['
  {
    hide At, HitAt, Calm;
    var p := |before|;
    CalmMisses(t, before);
    AtStarts(t, p + 9, w);
    AtOne(t, p + 9, '[');
    assert "\"claims\":" + "[" == "\"claims\":[";
    AtSplit(t, p, "\"claims\":", "[");
    ClaimsOpen(t, p);
    SearchIsFirst(Claims, t, 0, p);
  }

  // ---------------------------------------------------------------- where the text of a value holds it

  lemma {:induction false} LaterHolds(ms: seq<Member>, w: string)
    requires |ms| > 1 && PrintableMembers(ms) && PrintableMembers(ms[1..])
    requires Calm(PrintMember(ms[0]) + ",") && Holds(PrintMembers(ms[1..]), w)
    ensures Holds(PrintMembers(ms), w)
  {
    hide PrintableMember, PrintMember, PrintMembers, Holds, Calm;
    MembersPrint(ms);
    var m, rest := PrintMember(ms[0]), PrintMembers(ms[1..]);
    HoldsWithin(m + ",", rest, "", w);
    assert m + ("," + rest) == (m + ",") + (rest + "");
  }

  lemma FirstHolds(ms: seq<Member>, w: string)
    requires ms != [] && PrintableMembers(ms) && PrintableMember(ms[0]) && Printable(ms[0].value)
    requires Calm(ms[0].spelling + ":") && Holds(Print(ms[0].value), w)
    ensures Holds(PrintMembers(ms), w)
  {
    hide Printable, Spells, Print, Holds, Calm;
    var rest := if |ms| == 1 then "}" else "," + PrintMembers(ms[1..]);
    var v := Print(ms[0].value);
    HoldsWithin(ms[0].spelling + ":", v, rest, w);
    assert PrintMembers(ms) == (ms[0].spelling + (":" + v)) + rest;
    assert (ms[0].spelling + (":" + v)) + rest == (ms[0].spelling + ":") + (v + rest);
  }

  lemma ObjectHolds(ms: seq<Member>, w: string)
    requires Printable(Json.Object(ms)) && ms != [] && PrintableMembers(ms) && Holds(PrintMembers(ms), w)
    ensures Holds(Print(Json.Object(ms)), w)
  {
    hide PrintableMember, PrintMembers, Holds;
    HoldsWithin("{", PrintMembers(ms), "", w);
    assert PrintMembers(ms) + "" == PrintMembers(ms);
  }

  lemma ElementHolds(v: Json, w: string)
    requires Printable(Array([v])) && Printable(v) && Holds(Print(v), w)
    ensures Holds(Print(Array([v])), w)
  {
    hide Print, Holds;
    HoldsWithin("[", Print(v), "]", w);
    ElementPrints(v);
  }

  lemma ElementPrints(v: Json)
    requires Printable(Array([v])) && Printable(v)
    ensures Print(Array([v])) == "[" + (Print(v) + "]")
  {
  }

  lemma ClaimsHold(c: Claim)
    requires Printable(ClaimsArray(c)) && PrintableMembers([Plain("claims", ClaimsArray(c))])
    ensures Holds(PrintMembers([Plain("claims", ClaimsArray(c))]), ClaimsText(c))
  {
    hide Printable, Spells, Print, Calm, ClaimsArray;
    var x := Print(ClaimsArray(c));
    assert InQuotes("claims") == "\"claims\"";
    assert PrintMembers([Plain("claims", ClaimsArray(c))]) == ("\"claims\"" + (":" + x)) + "}";
    assert ("\"claims\"" + (":" + x)) + "}" == "" + (ClaimsText(c) + "}");
    assert Calm("") by { NothingCalm(); }
  }

  lemma NothingCalm()
    ensures Calm("")
  {
  }

  // ---------------------------------------------------------------- abstain repeated

  /** `{"abstain": false, "abstain": true, "missing_information": [], "claims": [c]}` */
  function ChangedMind(c: Claim): Json {
    Json.Object([Plain("abstain", Bool(false)), Plain("abstain", Bool(true)),
                 Plain("missing_information", Strings([])), Plain("claims", ClaimsArray(c))])
  }

  lemma ChangedMindRead(c: Claim, known: set<Str>)
    requires PrintableClaim(c, known)
    ensures Printable(ChangedMind(c)) && DraftOf(ChangedMind(c), known) == Some(Draft([c], [], true))
  {
    hide PrintableClaim, Spells, Printable, ClaimJson, Strings, StringList, BuildClaim, BuildClaims, InQuotes,
         SingleKeys;
    var ms := ChangedMind(c).members;
    ClaimRead(c, known);
    ArrayOf([ClaimJson(c)]);
    OneBuilt(ClaimJson(c), c, known);
    StringsRead([]);
    BoolOf(true);
    BoolOf(false);
    TwoKeys();
    PlainSpells("abstain");
    PlainSpells("claims");
    Members(ms);
    FourKeys(ms);
  }

  lemma Members(ms: seq<Member>)
    requires forall m | m in ms :: Spells(m.spelling, m.key) && Printable(m.value)
    ensures Printable(Json.Object(ms))
  {
    hide Spells;
    forall m | m in ms ensures PrintableMember(m) { assert Printable(m.value); }
  }

  lemma FourKeys(ms: seq<Member>)
    requires |ms| == 4 && ms[0].key == ms[1].key == ABSTAIN && ms[2].key == MISSING && ms[3].key == CLAIMS
    ensures Keys(ms) == {CLAIMS, MISSING, ABSTAIN}
    ensures Get(ms, ABSTAIN) == Some(ms[1].value) && Get(ms, MISSING) == Some(ms[2].value)
    ensures Get(ms, CLAIMS) == Some(ms[3].value)
  {
    assert |ABSTAIN| == 7 && |MISSING| == 19 && |CLAIMS| == 6;
    assert ms == [ms[0], ms[1], ms[2], ms[3]];
    var three := ms[..3];
    assert three == [ms[0], ms[1], ms[2]] && three[..2] == [ms[0], ms[1]];
    assert Get(three[..2], ABSTAIN) == Some(ms[1].value);
    assert Get(three, ABSTAIN) == Some(ms[1].value) && Get(three, MISSING) == Some(ms[2].value);
  }

  lemma ChangedMindHolds(c: Claim)
    requires Printable(ClaimsArray(c)) && Printable(ChangedMind(c)) && PrintableMembers(ChangedMind(c).members)
    ensures PrintableMembers(ChangedMind(c).members[1..])
    ensures Holds(PrintMembers(ChangedMind(c).members[1..]), ClaimsText(c))
  {
    hide Printable, PrintableMember, PrintMember, PrintMembers, Holds, Calm, ClaimsArray;
    var ms := ChangedMind(c).members;
    assert ms[3..] == [ms[3]] && ms[2..][1..] == ms[3..] && ms[1..][1..] == ms[2..];
    assert ms[1..][0] == ms[1] && ms[2..][0] == ms[2];
    assert PrintableMembers(ms[3..]) && PrintableMembers(ms[2..]) && PrintableMembers(ms[1..]);
    ClaimsHold(c);
    MissingIsCalm(ms[2]);
    AbstainsIsCalm(ms[1]);
    LaterHolds(ms[2..], ClaimsText(c));
    LaterHolds(ms[1..], ClaimsText(c));
  }

  lemma MissingIsCalm(m: Member)
    requires m == Plain("missing_information", Strings([])) && PrintableMember(m)
    ensures Calm(PrintMember(m) + ",")
  {
    hide Spells, Calm;
    var a, b := "\"missing_", "information\":[],";
    assert PrintMember(m) + "," == a + b;
    assert Calm(a) && Calm(b) by { MissingHalves(); }
    CalmJoin(a, b);
  }

  lemma MissingHalves()
    ensures Calm("\"missing_") && Calm("information\":[],")
  {
  }

  lemma AbstainsIsCalm(m: Member)
    requires m == Plain("abstain", Bool(true)) && PrintableMember(m)
    ensures Calm(PrintMember(m) + ",")
  {
    hide Spells;
    assert PrintMember(m) + "," == "\"abstain\":true,";
  }

  /** A draft that says twice whether it abstains, no first and then yes: it is accepted as abstaining, and
  its claim streams under every cutting. */
  lemma RepeatedAbstain(c: Claim, known: set<Str>) returns (t: string)
    requires PrintableClaim(c, known)
    ensures Printable(ChangedMind(c)) && t == Print(ChangedMind(c))
    ensures ParseAnswerDraft(t, known) == Some(Draft([c], [], true))
    ensures forall chunks | Flatten(chunks) == t :: FeedAll(known, chunks).1 == [c]
  {
    hide PrintableClaim, Printable, PrintableMember, Print, PrintMembers, Loads, DraftOf, FeedAll, Flatten, Holds;
    ChangedMindRead(c, known);
    t := Print(ChangedMind(c));
    PrintRoundTrip(ChangedMind(c));
    PrintOpens(ChangedMind(c));
    ClaimsArrayPrints(c, known);
    ChangedMindHolds(c);
    forall chunks | Flatten(chunks) == t ensures FeedAll(known, chunks).1 == [c] {
      StreamsWhatComesFirst(known, ChangedMind(c), c, chunks);
    }
  }

  lemma ClaimsArrayPrints(c: Claim, known: set<Str>)
    requires PrintableClaim(c, known)
    ensures Printable(ClaimsArray(c))
  {
    hide PrintableClaim, ClaimJson;
    ClaimRead(c, known);
    ArrayOf([ClaimJson(c)]);
  }

  // ---------------------------------------------------------------- a key repeated in a claim

  /** `{"claims": [a]}` */
  function Hidden(a: Claim): Json {
    Json.Object([Plain("claims", ClaimsArray(a))])
  }

  /** `{"text": {"claims": [a]}, "text": b.text, "evidence_ids": b.evidenceIds}` */
  function HidingClaim(a: Claim, b: Claim): Json {
    Json.Object([Plain("text", Hidden(a)), Plain("text", String(b.text)),
                 Plain("evidence_ids", Strings(b.evidenceIds))])
  }

  /** `{"abstain": false, "missing_information": [], "\u0063laims": [that claim]}` */
  function HidingDraft(a: Claim, b: Claim): Json {
    Json.Object([Plain("abstain", Bool(false)), Plain("missing_information", Strings([])),
                 Member(ESCAPED_CLAIMS, CLAIMS, Array([HidingClaim(a, b)]))])
  }

  lemma HiddenPrints(a: Claim, known: set<Str>)
    requires PrintableClaim(a, known)
    ensures Printable(Hidden(a)) && PrintableMembers(Hidden(a).members)
  {
    hide PrintableClaim, ClaimsArray, Spells, InQuotes, Printable;
    ClaimsArrayPrints(a, known);
    PlainSpells("claims");
    Members(Hidden(a).members);
  }

  lemma HidingClaimRead(a: Claim, b: Claim, known: set<Str>)
    requires PrintableClaim(a, known) && PrintableClaim(b, known)
    ensures Printable(HidingClaim(a, b)) && PrintableMembers(HidingClaim(a, b).members)
    ensures BuildClaim(HidingClaim(a, b), known) == Some(b)
  {
    hide Encodable, Strip, Strings, StringList, Spells, InQuotes, Hidden, Printable;
    var ms := HidingClaim(a, b).members;
    HiddenPrints(a, known);
    StringsRead(b.evidenceIds);
    StringPrints(b.text);
    TwoKeys();
    Members(ms);
    TwoOfThree(ms);
    assert b.evidenceIds != [];
  }

  lemma StringPrints(s: Str)
    requires Encodable(s)
    ensures Printable(String(s))
  {
  }

  lemma TwoOfThree(ms: seq<Member>)
    requires |ms| == 3 && ms[0].key == ms[1].key == Codes("text") && ms[2].key == Codes("evidence_ids")
    ensures Keys(ms) == {Codes("text"), Codes("evidence_ids")}
    ensures Get(ms, Codes("text")) == Some(ms[1].value) && Get(ms, Codes("evidence_ids")) == Some(ms[2].value)
  {
    assert |Codes("text")| == 4 && |Codes("evidence_ids")| == 12;
    assert ms == [ms[0], ms[1], ms[2]];
    assert ms[..2] == [ms[0], ms[1]];
    assert Get(ms[..2], Codes("text")) == Some(ms[1].value);
  }

  lemma HidingDraftRead(a: Claim, b: Claim, known: set<Str>)
    requires PrintableClaim(a, known) && PrintableClaim(b, known)
    ensures Printable(HidingDraft(a, b)) && DraftOf(HidingDraft(a, b), known) == Some(Draft([b], [], false))
  {
    hide PrintableClaim, Spells, Printable, HidingClaim, Strings, StringList, BuildClaim, BuildClaims, InQuotes;
    var ms := HidingDraft(a, b).members;
    HidingClaimRead(a, b, known);
    OneElement(HidingClaim(a, b));
    OneBuilt(HidingClaim(a, b), b, known);
    StringsRead([]);
    BoolOf(false);
    TwoKeys();
    PlainSpells("abstain");
    EscapedSpells();
    Members(ms);
    ThreeKeys(ms);
  }

  lemma OneElement(v: Json)
    requires Printable(v)
    ensures Printable(Array([v]))
  {
  }

  lemma OneBuilt(v: Json, c: Claim, known: set<Str>)
    requires BuildClaim(v, known) == Some(c)
    ensures BuildClaims([v], known) == Some([c])
  {
    hide BuildClaim;
    assert [v][1..] == [] && BuildClaims([], known) == Some([]);
    assert [c] + [] == [c];
  }

  lemma HidingClaimHolds(a: Claim, b: Claim)
    requires Printable(ClaimsArray(a)) && Printable(Hidden(a)) && PrintableMembers(Hidden(a).members)
    requires Printable(HidingClaim(a, b)) && PrintableMembers(HidingClaim(a, b).members)
    ensures Holds(Print(HidingClaim(a, b)), ClaimsText(a))
  {
    hide Printable, PrintableMember, Print, PrintMembers, Holds, Calm, ClaimsArray;
    var ms := HidingClaim(a, b).members;
    ClaimsHold(a);
    ObjectHolds(Hidden(a).members, ClaimsText(a));
    assert Calm(ms[0].spelling + ":") by { TextIsCalm(); }
    FirstHolds(ms, ClaimsText(a));
    ObjectHolds(ms, ClaimsText(a));
  }

  lemma TextIsCalm()
    ensures Calm(InQuotes("text") + ":") && Calm(ESCAPED_CLAIMS + ":")
  {
    assert InQuotes("text") + ":" == "\"text\":" && ESCAPED_CLAIMS + ":" == "\"\\u0063laims\":";
  }

  lemma HidingDraftHolds(a: Claim, b: Claim)
    requires Printable(HidingClaim(a, b)) && Printable(Array([HidingClaim(a, b)])) && Printable(ClaimsArray(a))
    requires Holds(Print(HidingClaim(a, b)), ClaimsText(a)) && PrintableMembers(HidingDraft(a, b).members)
    ensures PrintableMembers(HidingDraft(a, b).members[1..])
    ensures Holds(PrintMembers(HidingDraft(a, b).members[1..]), ClaimsText(a))
  {
    hide Printable, PrintableMember, Print, PrintMember, PrintMembers, Holds, Calm, ClaimsArray, HidingClaim;
    var ms := HidingDraft(a, b).members;
    assert ms[1..][1..] == ms[2..] && ms[1..][0] == ms[1] && ms[2..][0] == ms[2];
    assert PrintableMembers(ms[2..]) && PrintableMembers(ms[1..]);
    ElementHolds(HidingClaim(a, b), ClaimsText(a));
    TextIsCalm();
    FirstHolds(ms[2..], ClaimsText(a));
    MissingIsCalm(ms[1]);
    LaterHolds(ms[1..], ClaimsText(a));
  }

  /** A draft whose own `claims` key is escaped, and whose claim gives its text twice, first as an object with a plain
  `claims` array in it: it is accepted with its claim, and what streams, under every cutting, is the claim inside. */
  lemma HiddenClaimsStream(a: Claim, b: Claim, known: set<Str>) returns (t: string)
    requires PrintableClaim(a, known) && PrintableClaim(b, known)
    ensures Printable(HidingDraft(a, b)) && t == Print(HidingDraft(a, b))
    ensures ParseAnswerDraft(t, known) == Some(Draft([b], [], false))
    ensures forall chunks | Flatten(chunks) == t :: FeedAll(known, chunks).1 == [a]
  {
    hide PrintableClaim, Printable, PrintableMember, Print, PrintMembers, Loads, DraftOf, FeedAll, Flatten, Holds,
         BuildClaim, HidingClaim, Hidden, ClaimsArray;
    HidingDraftRead(a, b, known);
    t := Print(HidingDraft(a, b));
    PrintRoundTrip(HidingDraft(a, b));
    PrintOpens(HidingDraft(a, b));
    ClaimsArrayPrints(a, known);
    HiddenPrints(a, known);
    HidingClaimRead(a, b, known);
    OneElement(HidingClaim(a, b));
    HidingClaimHolds(a, b);
    HidingDraftHolds(a, b);
    forall chunks | Flatten(chunks) == t ensures FeedAll(known, chunks).1 == [a] {
      StreamsWhatComesFirst(known, HidingDraft(a, b), a, chunks);
    }
  }
}
