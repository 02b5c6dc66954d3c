/** What the parts of a draft must be for it to be accepted, what verification keeps, and how claims are shown;
each said without the code that computes it. */
module ClaimRules {
  import opened Text
  import opened Json
  import opened AnswerDraft

  // ---------------------------------------------------------------- text

  predicate AllBlank(s: Str) {
    forall i | 0 <= i < |s| :: IsSpaceCode(s[i])
  }

  predicate Trimmed(s: Str) {
    s != [] ==> !IsSpaceCode(s[0]) && !IsSpaceCode(s[|s| - 1])
  }

  /** `r` is `s` without the blanks at its ends. */
  ghost predicate StripsTo(s: Str, r: Str) {
    Trimmed(r) && exists a, b :: AllBlank(a) && AllBlank(b) && s == a + r + b
  }

  lemma {:induction false} StartStripped(s: Str) returns (a: Str)
    ensures AllBlank(a) && s == a + StripStart(s)
    ensures StripStart(s) != [] ==> !IsSpaceCode(StripStart(s)[0])
  {
    if |s| > 0 && IsSpaceCode(s[0]) {
      var rest := StartStripped(s[1..]);
      a := [s[0]] + rest;
      assert s == [s[0]] + s[1..];
    } else {
      a := [];
    }
  }

  lemma {:induction false} EndStripped(s: Str) returns (b: Str)
    ensures AllBlank(b) && s == StripEnd(s) + b
    ensures StripEnd(s) != [] ==> !IsSpaceCode(StripEnd(s)[|StripEnd(s)| - 1]) && StripEnd(s)[0] == s[0]
  {
    if |s| > 0 && IsSpaceCode(s[|s| - 1]) {
      var rest := EndStripped(s[..|s| - 1]);
      b := rest + [s[|s| - 1]];
      assert s == s[..|s| - 1] + [s[|s| - 1]];
    } else {
      b := [];
    }
  }

  lemma {:induction false} StartDropped(a: Str, s: Str)
    requires AllBlank(a) && (s != [] ==> !IsSpaceCode(s[0]))
    ensures StripStart(a + s) == s
    decreases |a|
  {
    if a == [] {
      assert a + s == s;
    } else {
      assert (a + s)[1..] == a[1..] + s;
      StartDropped(a[1..], s);
    }
  }

  lemma {:induction false} EndDropped(s: Str, b: Str)
    requires AllBlank(b) && (s != [] ==> !IsSpaceCode(s[|s| - 1]))
    ensures StripEnd(s + b) == s
    decreases |b|
  {
    if b == [] {
      assert s + b == s;
    } else {
      assert (s + b)[..|s + b| - 1] == s + b[..|b| - 1];
      EndDropped(s, b[..|b| - 1]);
    }
  }

  lemma StripIff(s: Str, r: Str)
    ensures Strip(s) == r <==> StripsTo(s, r)
  {
    hide StripStart, StripEnd, IsSpaceCode;
    if Strip(s) == r {
      var a := StartStripped(s);
      var b := EndStripped(StripStart(s));
      assert s == a + r + b;
    }
    if StripsTo(s, r) {
      var a, b :| AllBlank(a) && AllBlank(b) && s == a + r + b;
      assert a + r + b == a + (r + b);
      if r == [] {
        BlankStripped(a + b);
        assert s == a + b;
      } else {
        assert (r + b)[0] == r[0];
        StartDropped(a, r + b);
        EndDropped(r, b);
      }
    }
  }

  lemma BlankStripped(s: Str)
    requires AllBlank(s)
    ensures Strip(s) == []
  {
    assert s + [] == s;
    StartDropped(s, []);
  }

  // ---------------------------------------------------------------- what is accepted

  /** The last member with the key is at `i`. */
  predicate LastAt(ms: seq<Member>, key: Str, i: int) {
    0 <= i < |ms| && ms[i].key == key && forall j | i < j < |ms| :: ms[j].key != key
  }

  lemma {:induction false} GetIff(ms: seq<Member>, key: Str, v: Json)
    ensures Get(ms, key) == Some(v) <==> exists i :: LastAt(ms, key, i) && ms[i].value == v
  {
    if ms != [] {
      var n := |ms| - 1;
      GetIff(ms[..n], key, v);
      if ms[n].key == key {
        assert LastAt(ms, key, n);
      } else {
        forall i ensures LastAt(ms, key, i) <==> LastAt(ms[..n], key, i) { LastBefore(ms, key, i); }
        assert forall i | 0 <= i < n :: ms[i].value == ms[..n][i].value;
      }
    }
  }

  lemma LastBefore(ms: seq<Member>, key: Str, i: int)
    requires ms != [] && ms[|ms| - 1].key != key
    ensures LastAt(ms, key, i) <==> LastAt(ms[..|ms| - 1], key, i)
  {
    var init := ms[..|ms| - 1];
    assert forall j | 0 <= j < |init| :: init[j] == ms[j];
    if LastAt(init, key, i) { assert LastAt(ms, key, i); }
  }

  predicate StringsAre(v: Json, ss: seq<Str>) {
    v.Array? && |v.items| == |ss| && forall i | 0 <= i < |ss| :: v.items[i] == String(ss[i])
  }

  lemma StringsIff(v: Json, ss: seq<Str>)
    ensures StringList(v) == Some(ss) <==> StringsAre(v, ss)
  {
    if StringsAre(v, ss) {
      assert forall x | x in v.items :: x.String?;
      assert StringList(v).value == ss;
    }
    if StringList(v) == Some(ss) {
      forall i | 0 <= i < |ss| ensures v.items[i] == String(ss[i]) { assert v.items[i] in v.items; }
    }
  }

  /** The object says the claim: it has the two keys and no other, the last text of the two is not blank and is the
  claim's with the blanks around it, and the last list is the claim's, not empty and of known evidence. */
  ghost predicate SaysClaim(v: Json, known: set<Str>, c: Claim) {
    && v.Object? && (forall m | m in v.members :: m.key == Codes("text") || m.key == Codes("evidence_ids"))
    && (exists i, s ::
          LastAt(v.members, Codes("text"), i) && v.members[i].value == String(s) && StripsTo(s, c.text) && c.text != [])
    && (exists j ::
          LastAt(v.members, Codes("evidence_ids"), j) && StringsAre(v.members[j].value, c.evidenceIds))
    && c.evidenceIds != [] && forall id | id in c.evidenceIds :: id in known
  }

  lemma ClaimIff(v: Json, known: set<Str>, c: Claim)
    ensures BuildClaim(v, known) == Some(c) <==> SaysClaim(v, known, c)
  {
    hide Strip, StripsTo, StringList, StringsAre, Get;
    if BuildClaim(v, known) == Some(c) {
      var text, ids := Get(v.members, Codes("text")).value, Get(v.members, Codes("evidence_ids")).value;
      GetIff(v.members, Codes("text"), text);
      GetIff(v.members, Codes("evidence_ids"), ids);
      StripIff(text.s, c.text);
      StringsIff(ids, c.evidenceIds);
      assert forall m | m in v.members :: m.key in Keys(v.members);
    }
    if SaysClaim(v, known, c) {
      var i, s :| LastAt(v.members, Codes("text"), i) && v.members[i].value == String(s)
        && StripsTo(s, c.text) && c.text != [];
      var j :| LastAt(v.members, Codes("evidence_ids"), j) && StringsAre(v.members[j].value, c.evidenceIds);
      GetIff(v.members, Codes("text"), String(s));
      GetIff(v.members, Codes("evidence_ids"), v.members[j].value);
      StripIff(s, c.text);
      StringsIff(v.members[j].value, c.evidenceIds);
      KeysAre2(v.members, i, j);
    }
  }

  lemma KeysAre2(ms: seq<Member>, i: int, j: int)
    requires forall m | m in ms :: m.key == Codes("text") || m.key == Codes("evidence_ids")
    requires LastAt(ms, Codes("text"), i) && LastAt(ms, Codes("evidence_ids"), j)
    ensures Keys(ms) == {Codes("text"), Codes("evidence_ids")}
  {
    assert ms[i] in ms && ms[j] in ms;
  }

  /** The object says the draft: it has the three keys and no other, and the last of each says its part. */
  ghost predicate SaysDraft(v: Json, known: set<Str>, d: Draft) {
    && v.Object? && (forall m | m in v.members :: m.key == CLAIMS || m.key == MISSING || m.key == ABSTAIN)
    && (exists i :: LastAt(v.members, ABSTAIN, i) && v.members[i].value == Bool(d.abstain))
    && (exists j :: LastAt(v.members, MISSING, j) && StringsAre(v.members[j].value, d.missing))
    && (exists k :: LastAt(v.members, CLAIMS, k) && SaysClaims(v.members[k].value, known, d.claims))
  }

  ghost predicate SaysClaims(v: Json, known: set<Str>, cs: seq<Claim>) {
    v.Array? && |v.items| == |cs| && forall i | 0 <= i < |cs| :: SaysClaim(v.items[i], known, cs[i])
  }

  lemma {:induction false} ClaimsIff(vs: seq<Json>, known: set<Str>, cs: seq<Claim>)
    ensures BuildClaims(vs, known) == Some(cs) <==> SaysClaims(Array(vs), known, cs)
  {
    hide BuildClaim, SaysClaim;
    if vs != [] {
      if cs != [] {
        ClaimIff(vs[0], known, cs[0]);
        ClaimsIff(vs[1..], known, cs[1..]);
        assert cs == [cs[0]] + cs[1..];
      }
      if BuildClaims(vs, known) == Some(cs) { assert cs != []; }
      if SaysClaims(Array(vs), known, cs) { assert SaysClaims(Array(vs[1..]), known, cs[1..]); }
    }
  }

  /** A text is accepted as a draft exactly when it is JSON and says that draft. */
  lemma AcceptedIff(t: string, known: set<Str>, d: Draft)
    ensures ParseAnswerDraft(t, known) == Some(d) <==> Loads(t).Some? && SaysDraft(Loads(t).value, known, d)
  {
    hide Loads, DraftOf, SaysDraft;
    if Loads(t).Some? { DraftIff(Loads(t).value, known, d); }
  }

  lemma DraftIff(v: Json, known: set<Str>, d: Draft)
    ensures DraftOf(v, known) == Some(d) <==> SaysDraft(v, known, d)
  {
    hide DraftOf, SaysDraft;
    if DraftOf(v, known) == Some(d) { BuiltSays(v, known, d); }
    if SaysDraft(v, known, d) { SaidIsBuilt(v, known, d); }
  }

  lemma BuiltSays(v: Json, known: set<Str>, d: Draft)
    requires DraftOf(v, known) == Some(d)
    ensures SaysDraft(v, known, d)
  {
    hide StringList, StringsAre, Get, BuildClaims, SaysClaims;
    var c, m, a := Get(v.members, CLAIMS).value, Get(v.members, MISSING).value, Get(v.members, ABSTAIN).value;
    GetIff(v.members, CLAIMS, c);
    GetIff(v.members, MISSING, m);
    GetIff(v.members, ABSTAIN, a);
    StringsIff(m, d.missing);
    ClaimsIff(c.items, known, d.claims);
    assert forall x | x in v.members :: x.key in Keys(v.members);
  }

  lemma SaidIsBuilt(v: Json, known: set<Str>, d: Draft)
    requires SaysDraft(v, known, d)
    ensures DraftOf(v, known) == Some(d)
  {
    hide StringList, StringsAre, Get, BuildClaims, SaysClaims;
    var i :| LastAt(v.members, ABSTAIN, i) && v.members[i].value == Bool(d.abstain);
    var j :| LastAt(v.members, MISSING, j) && StringsAre(v.members[j].value, d.missing);
    var k :| LastAt(v.members, CLAIMS, k) && SaysClaims(v.members[k].value, known, d.claims);
    GetIff(v.members, ABSTAIN, Bool(d.abstain));
    GetIff(v.members, MISSING, v.members[j].value);
    GetIff(v.members, CLAIMS, v.members[k].value);
    StringsIff(v.members[j].value, d.missing);
    ArrayOfClaims(v.members[k].value, known, d.claims);
    ClaimsIff(v.members[k].value.items, known, d.claims);
    KeysAre3(v.members, i, j, k);
  }

  lemma ArrayOfClaims(v: Json, known: set<Str>, cs: seq<Claim>)
    requires SaysClaims(v, known, cs)
    ensures v.Array? && v == Array(v.items)
  {
  }

  lemma KeysAre3(ms: seq<Member>, i: int, j: int, k: int)
    requires forall m | m in ms :: m.key == CLAIMS || m.key == MISSING || m.key == ABSTAIN
    requires LastAt(ms, ABSTAIN, i) && LastAt(ms, MISSING, j) && LastAt(ms, CLAIMS, k)
    ensures Keys(ms) == {CLAIMS, MISSING, ABSTAIN}
  {
    assert ms[i] in ms && ms[j] in ms && ms[k] in ms;
  }

  // ---------------------------------------------------------------- what is supported

  /** The overlap is the share of the claim's tokens that the document has. */
  lemma OverlapMeans(claim: set<Str>, doc: set<Str>)
    ensures 0.0 <= Overlap(claim, doc) <= 1.0
    ensures Overlap(claim, doc) * |claim| as real == |claim * doc| as real
    ensures claim != {} ==> (Overlap(claim, doc) == 1.0 <==> claim <= doc)
    ensures Overlap(claim, doc) == 0.0 <==> claim !! doc
  {
    var both := claim * doc;
    if claim != {} && doc != {} {
      Smaller(both, claim);
      Share(|both|, |claim|);
      if both != {} { assert |both| > 0; }
      if claim <= doc { assert both == claim; }
    } else {
      assert both == {};
      if doc == {} && claim != {} { assert !(claim <= doc); }
    }
  }

  lemma Share(a: nat, b: nat)
    requires a <= b && b > 0
    ensures 0.0 <= a as real / b as real <= 1.0 && (a as real / b as real) * b as real == a as real
    ensures (a as real / b as real == 1.0 <==> a == b) && (a as real / b as real == 0.0 <==> a == 0)
  {
  }

  lemma {:induction false} Smaller(a: set<Str>, b: set<Str>)
    requires a <= b
    ensures |a| <= |b| && (|a| == |b| ==> a == b)
  {
    if a != {} {
      var x :| x in a;
      Smaller(a - {x}, b - {x});
    } else if b != {} {
      assert |b| > 0;
    }
  }

  /** A claim verifies when it cites something and each thing that it cites is known and shares enough of its tokens. */
  lemma SupportedIff(v: Verifier, c: Claim)
    ensures Supported(v, c) <==> c.evidenceIds != [] && forall i | 0 <= i < |c.evidenceIds| ::
      c.evidenceIds[i] in v.evidence
      && Shares(v.tokenize(c.text), v.tokenize(v.evidence[c.evidenceIds[i]]), v.threshold)
  {
    hide Overlap, Shares;
    forall claim, doc ensures Shares(claim, doc, v.threshold) <==> Overlap(claim, doc) >= v.threshold {
      SharesIff(claim, doc, v.threshold);
    }
  }

  /** Of the tokens of the claim at least this share is in the document; of no tokens none is. */
  predicate Shares(claim: set<Str>, doc: set<Str>, share: real) {
    if claim == {} then share <= 0.0 else |claim * doc| as real >= share * |claim| as real
  }

  lemma SharesIff(claim: set<Str>, doc: set<Str>, share: real)
    ensures Shares(claim, doc, share) <==> Overlap(claim, doc) >= share
  {
    hide Overlap;
    OverlapMeans(claim, doc);
    if claim == {} {
      assert Overlap(claim, doc) == 0.0;
    } else {
      Scaled(Overlap(claim, doc), share, |claim| as real);
    }
  }

  lemma Scaled(x: real, y: real, n: real)
    requires n > 0.0
    ensures x >= y <==> x * n >= y * n
  {
    if x * n >= y * n { assert (x - y) * n >= 0.0; }
    if x >= y { assert (x - y) * n >= 0.0; }
  }

  /** Verification keeps the claims that verify, each as often as it stands there, in order. */
  lemma {:induction false} KeptClaims(v: Verifier, cs: seq<Claim>)
    ensures forall c :: multiset(SupportedOnly(v, cs))[c] == if Supported(v, c) then multiset(cs)[c] else 0
    ensures forall n | 0 <= n <= |cs| :: SupportedOnly(v, cs[..n]) <= SupportedOnly(v, cs)
  {
    hide Supported;
    if cs != [] {
      var init, last := cs[..|cs| - 1], cs[|cs| - 1];
      KeptClaims(v, init);
      assert cs == init + [last];
      forall n | 0 <= n <= |cs| ensures SupportedOnly(v, cs[..n]) <= SupportedOnly(v, cs) {
        if n < |cs| { assert cs[..n] == init[..n]; } else { assert cs[..n] == cs; }
      }
    } else {
      assert forall n | 0 <= n <= |cs| :: cs[..n] == [];
    }
  }

  /** Of a draft that does not abstain the claims that verify are supported; of one that abstains, none. */
  lemma DraftSupports(v: Verifier, d: Draft)
    ensures forall c ::
      multiset(SupportedClaims(v, d))[c] == if !d.abstain && Supported(v, c) then multiset(d.claims)[c] else 0
  {
    hide Supported, SupportedOnly;
    KeptClaims(v, d.claims);
  }

  // ---------------------------------------------------------------- what is shown

  lemma {:induction false} JoinSplits(sep: Str, a: seq<Str>, b: seq<Str>)
    requires a != [] && b != []
    ensures Join(sep, a + b) == Join(sep, a) + sep + Join(sep, b)
    decreases |b|
  {
    var init := b[..|b| - 1];
    assert (a + b)[..|a + b| - 1] == a + init;
    if |b| == 1 {
      assert a + init == a;
    } else {
      JoinSplits(sep, a, init);
      assert Join(sep, a) + sep + Join(sep, init) + sep + b[|b| - 1]
          == Join(sep, a) + sep + (Join(sep, init) + sep + b[|b| - 1]);
    }
  }

  /** A shown claim is its text and, after a blank each, its evidence in brackets. */
  lemma ClaimShown(text: Str, ids: seq<Str>, id: Str)
    ensures RenderClaim(Claim(text, [id])) == text + Codes(" [") + id + Codes("]")
    ensures ids != [] ==>
      RenderClaim(Claim(text, ids + [id])) == RenderClaim(Claim(text, ids)) + Codes(" [") + id + Codes("]")
  {
    hide Codes, Join;
    Pieces();
    BracketsGrow([], id);
    JoinOne(Bracket(id));
    BracketsGrow(ids, id);
    if ids != [] { JoinSplits(Codes(" "), Brackets(ids), [Bracket(id)]); }
    assert Codes(" ") + Bracket(id) == Codes(" [") + id + Codes("]");
    RenderedAs(Claim(text, [id]));
    RenderedAs(Claim(text, ids));
    RenderedAs(Claim(text, ids + [id]));
  }

  function Bracket(id: Str): Str {
    Codes("[") + id + Codes("]")
  }

  function Brackets(ids: seq<Str>): seq<Str> {
    seq(|ids|, i requires 0 <= i < |ids| => Bracket(ids[i]))
  }

  lemma BracketsGrow(ids: seq<Str>, id: Str)
    ensures Brackets([id]) == [Bracket(id)] && Brackets(ids + [id]) == Brackets(ids) + [Bracket(id)]
  {
    hide Bracket;
  }

  lemma RenderedAs(c: Claim)
    ensures RenderClaim(c) == c.text + Codes(" ") + Join(Codes(" "), Brackets(c.evidenceIds))
  {
    hide Join, Codes;
    var l := seq(|c.evidenceIds|, i requires 0 <= i < |c.evidenceIds| =>
      Codes("[") + c.evidenceIds[i] + Codes("]"));
    assert l == Brackets(c.evidenceIds);
  }

  lemma Pieces()
    ensures Codes(" [") == Codes(" ") + Codes("[")
  {
  }

  lemma JoinOne(x: Str)
    ensures Join(Codes(" "), [x]) == x
  {
  }

  /** Shown together, claims stand in order with a blank between them. */
  lemma ClaimsShown(a: seq<Claim>, b: seq<Claim>, c: Claim)
    ensures RenderClaims([c]) == RenderClaim(c) && RenderClaims([]) == ABSTENTION
    ensures a != [] && b != [] ==> RenderClaims(a + b) == RenderClaims(a) + Codes(" ") + RenderClaims(b)
  {
    hide RenderClaim, Join, Codes;
    assert RenderEach([c]) == [RenderClaim(c)];
    JoinOne(RenderClaim(c));
    assert RenderEach(a + b) == RenderEach(a) + RenderEach(b);
    if a != [] && b != [] { JoinSplits(Codes(" "), RenderEach(a), RenderEach(b)); }
  }
}
