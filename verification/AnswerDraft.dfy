/** Answer drafts and their verification (`safety.py`).

None stands for the `ValueError` that each check raises. */
module AnswerDraft {
  import opened Text
  import opened Json

  datatype Claim = Claim(text: Str, evidenceIds: seq<Str>)

  datatype Draft = Draft(claims: seq<Claim>, missing: seq<Str>, abstain: bool)

  function StringList(v: Json): Option<seq<Str>> {
    if v.Array? && forall x | x in v.items :: x.String?
    then Some(seq(|v.items|, i requires 0 <= i < |v.items| => v.items[i].s))
    else None
  }

  predicate Has(v: Json, keys: set<Str>) {
    v.Object? && Keys(v.members) == keys
  }

  function BuildClaim(v: Json, known: set<Str>): Option<Claim> {
    if !Has(v, {Codes("text"), Codes("evidence_ids")}) then None
    else
      var text, ids := Get(v.members, Codes("text")), Get(v.members, Codes("evidence_ids"));
      if text.None? || !text.value.String? || Strip(text.value.s) == [] then None
      else if ids.None? || StringList(ids.value) in {None, Some([])} then None
      else if exists id | id in StringList(ids.value).value :: id !in known then None
      else Some(Claim(Strip(text.value.s), StringList(ids.value).value))
  }

  function BuildClaims(vs: seq<Json>, known: set<Str>): Option<seq<Claim>> {
    if vs == [] then Some([])
    else match (BuildClaim(vs[0], known), BuildClaims(vs[1..], known))
      case (Some(c), Some(cs)) => Some([c] + cs)
      case _ => None
  }

  const CLAIMS := Codes("claims")
  const MISSING := Codes("missing_information")
  const ABSTAIN := Codes("abstain")

  function DraftOf(v: Json, known: set<Str>): Option<Draft> {
    if !Has(v, {CLAIMS, MISSING, ABSTAIN}) then None
    else
      var c, m, a := Get(v.members, CLAIMS), Get(v.members, MISSING), Get(v.members, ABSTAIN);
      if c.None? || !c.value.Array? || m.None? || StringList(m.value).None? || a.None? || !a.value.Bool? then None
      else match BuildClaims(c.value.items, known)
        case None => None
        case Some(cs) => Some(Draft(cs, StringList(m.value).value, a.value.b))
  }

  function ParseAnswerDraft(text: string, known: set<Str>): Option<Draft> {
    match Loads(text)
    case None => None
    case Some(v) => DraftOf(v, known)
  }

  // ---------------------------------------------------------------- verification

  /** The evidence map with the two things its verdicts depend on. `tokenize` is any function. */
  datatype Verifier = Verifier(evidence: map<Str, Str>, tokenize: Str -> set<Str>, threshold: real)

  function Overlap(claim: set<Str>, doc: set<Str>): real {
    if claim == {} || doc == {} then 0.0 else |claim * doc| as real / |claim| as real
  }

  predicate Supported(v: Verifier, c: Claim) {
    && c.evidenceIds != []
    && forall id | id in c.evidenceIds ::
      id in v.evidence && Overlap(v.tokenize(c.text), v.tokenize(v.evidence[id])) >= v.threshold
  }

  function SupportedOnly(v: Verifier, cs: seq<Claim>): seq<Claim> {
    if cs == [] then []
    else SupportedOnly(v, cs[..|cs| - 1]) + if Supported(v, cs[|cs| - 1]) then [cs[|cs| - 1]] else []
  }

  /** What `verify_answer_draft` keeps: an abstaining draft supports nothing. */
  function SupportedClaims(v: Verifier, d: Draft): seq<Claim> {
    if d.abstain then [] else SupportedOnly(v, d.claims)
  }

  /** Its `unsupported_claims` is empty. */
  predicate FullySupported(v: Verifier, d: Draft) {
    if d.abstain then d.claims == [] else forall c | c in d.claims :: Supported(v, c)
  }

  // ---------------------------------------------------------------- rendering

  const ABSTENTION := Codes("I don't know based on the available evidence.")
  const TIMED_OUT := Codes("I couldn't complete an answer in time. Please try again.")

  function RenderClaim(c: Claim): Str {
    c.text + Codes(" ") + Join(Codes(" "), seq(|c.evidenceIds|, i requires 0 <= i < |c.evidenceIds| =>
      Codes("[") + c.evidenceIds[i] + Codes("]")))
  }

  function RenderEach(cs: seq<Claim>): seq<Str> {
    seq(|cs|, i requires 0 <= i < |cs| => RenderClaim(cs[i]))
  }

  function RenderClaims(cs: seq<Claim>): Str {
    if cs == [] then ABSTENTION else Join(Codes(" "), RenderEach(cs))
  }
}
