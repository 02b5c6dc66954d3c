/** What a guarded run does with what the provider sends, from the first attempt to the last.

An attempt meets a reply, a timeout or an error. A reply that is incomplete, is no draft, or is a draft with an
unsupported claim is tried again; everything else ends the run, in its own way. */
module GuardedRuns {
  import opened Text
  import opened AnswerDraft
  import opened DraftReader
  import opened GuardedAnswer

  /** A call makes one attempt and the retries that it wants, no fewer than none and no more than the cap. */
  lemma AttemptsAllowed(s: Setup)
    ensures s.cap < 0 ==> s.MaxAttempts() == 1 + s.cap
    ensures s.maxRetries <= 0 <= s.cap ==> s.MaxAttempts() == 1
    ensures 0 <= s.maxRetries <= s.cap ==> s.MaxAttempts() == 1 + s.maxRetries
    ensures 0 <= s.cap <= s.maxRetries ==> s.MaxAttempts() == 1 + s.cap
  {
  }

  /** A call streams exactly when there is a listener and the provider can: otherwise the chunks do not matter, and if
  so the whole replies do not. */
  lemma StreamsIff(s: Setup, g: Gen, a: Attempt, a': Attempt)
    requires a'.fallback == a.fallback
    ensures (!s.onClaim || !s.canStream) && a'.whole == a.whole ==> Try(s, g, a') == Try(s, g, a)
    ensures s.onClaim && s.canStream && a'.chunks == a.chunks && a'.end == a.end ==> Try(s, g, a') == Try(s, g, a)
  {
    hide Judge, FeedAll, SupportedOnly, CommitAll, RenderClaims, Flatten;
  }

  /** Two claims are shown as one exactly when they have one text and cite the same evidence, in any order. */
  lemma SameClaimIff(a: Claim, b: Claim)
    ensures KeyOf(a) == KeyOf(b) <==>
      a.text == b.text && forall id :: id in a.evidenceIds <==> id in b.evidenceIds
  {
    if KeyOf(a) == KeyOf(b) {
      forall id ensures id in a.evidenceIds <==> id in b.evidenceIds {
        assert id in KeyOf(a).1 <==> id in KeyOf(b).1;
      }
    } else if a.text == b.text {
      assert KeyOf(a).1 != KeyOf(b).1;
    }
  }

  // ---------------------------------------------------------------- what an attempt meets

  datatype Met = Got(reply: Reply) | Late | Broken

  /** While the schema is asked for, its rejection is met by asking once without it. */
  function AskedAgain(schema: bool, c: Completion): Met {
    if schema && c.Answered? then Got(c.reply) else Broken
  }

  function Meets(s: Setup, schema: bool, a: Attempt): Met {
    if s.Streaming() then
      match a.end
      case Finished => Got(Plain(Flatten(a.chunks)))
      case TimedOut => Late
      case Unsupported => AskedAgain(schema, a.fallback)
      case Failed => Broken
    else
      match a.whole
      case Answered(reply) => Got(reply)
      case CallTimedOut => Late
      case CallUnsupported => AskedAgain(schema, a.fallback)
      case CallFailed => Broken
  }

  predicate RejectsSchema(s: Setup, a: Attempt) {
    if s.Streaming() then a.end == Unsupported else a.whole == CallUnsupported
  }

  predicate Refusal(m: Met) {
    m.Got? && m.reply.Structured? && m.reply.refused
  }

  /** The draft that a complete reply brings. */
  function Brought(s: Setup, m: Met): Option<Draft> {
    if !m.Got? || (m.reply.Structured? && (m.reply.refused || m.reply.incomplete)) then None
    else ParseAnswerDraft(m.reply.text, s.verifier.evidence.Keys)
  }

  predicate Conclusive(s: Setup, d: Draft) {
    d.abstain || forall c | c in d.claims :: Supported(s.verifier, c)
  }

  predicate Retried(s: Setup, m: Met) {
    m.Got? && !Refusal(m) && (Brought(s, m).None? || !Conclusive(s, Brought(s, m).value))
  }

  /** What verifies while the attempt streams. */
  function Streamed(s: Setup, a: Attempt): seq<Claim> {
    if s.Streaming() then SupportedOnly(s.verifier, FeedAll(s.verifier.evidence.Keys, a.chunks).1) else []
  }

  /** What an attempt shows a listener: what verifies while it streams, and then all that its draft supports. */
  function Shows(s: Setup, schema: bool, a: Attempt): seq<Claim> {
    Streamed(s, a)
    + match Brought(s, Meets(s, schema, a))
      case Some(d) => if s.onClaim then SupportedClaims(s.verifier, d) else []
      case None => []
  }

  // ---------------------------------------------------------------- a row of attempts

  predicate AllRetried(s: Setup, schema: bool, attempts: seq<Attempt>) {
    attempts == []
    || (Retried(s, Meets(s, schema, attempts[0]))
        && AllRetried(s, schema && !RejectsSchema(s, attempts[0]), attempts[1..]))
  }

  function AllShown(s: Setup, schema: bool, attempts: seq<Attempt>): seq<Claim> {
    if attempts == [] then []
    else Shows(s, schema, attempts[0]) + AllShown(s, schema && !RejectsSchema(s, attempts[0]), attempts[1..])
  }

  /** The schema is still asked for after them. */
  predicate StillAsked(s: Setup, schema: bool, attempts: seq<Attempt>) {
    schema && forall a | a in attempts :: !RejectsSchema(s, a)
  }

  /** One call each, and one more where the schema is rejected. */
  function Calls(s: Setup, attempts: seq<Attempt>): nat {
    if attempts == [] then 0 else 1 + (if RejectsSchema(s, attempts[0]) then 1 else 0) + Calls(s, attempts[1..])
  }

  /** What the last draft among them supports. */
  function LastSupported(s: Setup, schema: bool, attempts: seq<Attempt>, otherwise: Option<Judged>): Option<Judged> {
    if attempts == [] then otherwise
    else
      var now := match Brought(s, Meets(s, schema, attempts[0]))
        case Some(d) => Some(Judged(SupportedClaims(s.verifier, d)))
        case None => otherwise;
      LastSupported(s, schema && !RejectsSchema(s, attempts[0]), attempts[1..], now)
  }

  // ---------------------------------------------------------------- one attempt

  /** How a reply is taken. */
  lemma ReplyTaken(s: Setup, g: Gen, m: Met)
    requires m.Got?
    ensures var step := Judge(s, g, m.reply);
      && step.g.schema == g.schema && step.g.calls == g.calls
      && step.g.committed == CommitAll(g.committed, match Brought(s, m)
           case Some(d) => if s.onClaim then SupportedClaims(s.verifier, d) else []
           case None => [])
      && step.g.result == (match Brought(s, m)
           case Some(d) => Some(Judged(SupportedClaims(s.verifier, d)))
           case None => g.result)
      && (Retried(s, m) ==> step.Next?)
      && (Refusal(m) ==> step == Return(g, if g.committed != [] then RenderClaims(g.committed) else ABSTENTION))
      && (!Retried(s, m) && !Refusal(m) ==> step.Leave? && Brought(s, m).Some? && Conclusive(s, Brought(s, m).value))
  {
    hide ParseAnswerDraft, Supported, SupportedClaims, RenderClaims, CommitAll;
    CommitNone(g.committed);
    Supporting(s, m);
  }

  /** A draft that does not abstain has an unsupported claim exactly when it is not conclusive. */
  lemma Supporting(s: Setup, m: Met)
    ensures Brought(s, m).Some? ==> var d := Brought(s, m).value;
      (d.abstain || FullySupported(s.verifier, d) <==> Conclusive(s, d))
  {
    hide ParseAnswerDraft, Supported;
  }

  /** The state in which an attempt has met its reply. */
  lemma AttemptMeets(s: Setup, g: Gen, a: Attempt)
    ensures var m := Meets(s, g.schema, a);
      var streamed := Streamed(s, a);
      var g' := g.(committed := CommitAll(g.committed, streamed), calls := g.calls + 1);
      var asked := g'.(schema := false, calls := g'.calls + 1);
      && (m.Got? ==> Try(s, g, a) == Judge(s, if RejectsSchema(s, a) then asked else g', m.reply))
      && (m.Late? ==>
            Try(s, g, a) == Return(g', if g'.committed != [] then RenderClaims(g'.committed) else TIMED_OUT))
      && (m.Broken? ==> Try(s, g, a).Raise? && Try(s, g, a).g.committed == g'.committed)
      && (m.Got? && RejectsSchema(s, a) ==> g.schema)
  {
    hide Judge, FeedAll, SupportedOnly, CommitAll, RenderClaims, Flatten;
    CommitNone(g.committed);
  }

  /** The state after an attempt. */
  function After(s: Setup, g: Gen, a: Attempt): Gen {
    Gen(CommitAll(g.committed, Shows(s, g.schema, a)),
        match Brought(s, Meets(s, g.schema, a))
          case Some(d) => Some(Judged(SupportedClaims(s.verifier, d)))
          case None => g.result,
        g.schema && !RejectsSchema(s, a),
        g.calls + 1 + if RejectsSchema(s, a) then 1 else 0)
  }

  lemma AttemptTaken(s: Setup, g: Gen, a: Attempt)
    requires Meets(s, g.schema, a).Got?
    ensures var m := Meets(s, g.schema, a); var step := Try(s, g, a);
      && step.g == After(s, g, a)
      && (Retried(s, m) ==> step.Next?)
      && (Refusal(m) ==>
            step == Return(step.g, if step.g.committed != [] then RenderClaims(step.g.committed) else ABSTENTION))
      && (!Retried(s, m) && !Refusal(m) ==> step.Leave?)
  {
    hide Judge, Meets, Brought, Retried, FeedAll, SupportedOnly, SupportedClaims, CommitAll, RenderClaims, Supported,
         Try, Refusal, Streamed;
    var m := Meets(s, g.schema, a);
    var streamed := Streamed(s, a);
    var g' := g.(committed := CommitAll(g.committed, streamed), calls := g.calls + 1);
    var met := if RejectsSchema(s, a) then g'.(schema := false, calls := g'.calls + 1) else g';
    AttemptMeets(s, g, a);
    ReplyTaken(s, met, m);
    var drafted := match Brought(s, m)
      case Some(d) => if s.onClaim then SupportedClaims(s.verifier, d) else []
      case None => [];
    CommitConcat(g.committed, streamed, drafted);
    assert Shows(s, g.schema, a) == streamed + drafted;
    RefusedBrings(s, m);
    CommitNone(met.committed);
  }

  lemma RefusedBrings(s: Setup, m: Met)
    ensures Refusal(m) ==> Brought(s, m).None?
  {
    hide ParseAnswerDraft;
  }

  lemma AttemptEnds(s: Setup, g: Gen, a: Attempt)
    requires !Meets(s, g.schema, a).Got?
    ensures var m := Meets(s, g.schema, a); var step := Try(s, g, a);
      && step.g.committed == CommitAll(g.committed, Shows(s, g.schema, a))
      && (m.Late? ==>
            && step.g.calls == g.calls + 1
            && step == Return(step.g, if step.g.committed != [] then RenderClaims(step.g.committed) else TIMED_OUT))
      && (m.Broken? ==> step.Raise?)
  {
    hide Meets, FeedAll, SupportedOnly, CommitAll, RenderClaims, Try;
    var streamed := Streamed(s, a);
    AttemptMeets(s, g, a);
    assert streamed + [] == streamed;
  }

  // ---------------------------------------------------------------- whole runs

  /** The state after a row of attempts that are all tried again. */
  function AfterAll(s: Setup, g: Gen, attempts: seq<Attempt>): Gen {
    Gen(CommitAll(g.committed, AllShown(s, g.schema, attempts)), LastSupported(s, g.schema, attempts, g.result),
        StillAsked(s, g.schema, attempts), g.calls + Calls(s, attempts))
  }

  /** A row of attempts that are tried again does not end the run while attempts are left. */
  lemma {:induction false} RetriesGoOn(s: Setup, g: Gen, before: seq<Attempt>, rest: seq<Attempt>)
    requires AllRetried(s, g.schema, before)
    ensures Run(s, g, before + rest) == Run(s, AfterAll(s, g, before), rest)
    decreases |before|
  {
    hide Try, Meets, Shows, Brought, CommitAll, SupportedClaims, Run, RejectsSchema, Conclusive;
    if before == [] {
      assert before + rest == rest;
      CommitNone(g.committed);
      assert AfterAll(s, g, before) == g;
    } else {
      var a := before[0];
      var g' := After(s, g, a);
      AttemptTaken(s, g, a);
      RunStep(s, g, before + rest);
      assert (before + rest)[1..] == before[1..] + rest;
      RetriesGoOn(s, g', before[1..], rest);
      AfterStep(s, g, before);
    }
  }

  lemma RunStep(s: Setup, g: Gen, attempts: seq<Attempt>)
    requires attempts != []
    ensures Run(s, g, attempts) == match Try(s, g, attempts[0])
      case Next(g') => Run(s, g', attempts[1..])
      case Leave(g') => (Some(Finish(g')), g')
      case Return(g', answer) => (Some(answer), g')
      case Raise(g') => (None, g')
  {
    hide Try, Finish;
  }

  lemma AfterStep(s: Setup, g: Gen, attempts: seq<Attempt>)
    requires attempts != []
    ensures AfterAll(s, g, attempts) == AfterAll(s, After(s, g, attempts[0]), attempts[1..])
  {
    hide Meets, Shows, Brought, CommitAll, SupportedClaims, RejectsSchema;
    var a, rest := attempts[0], attempts[1..];
    CommitConcat(g.committed, Shows(s, g.schema, a), AllShown(s, g.schema && !RejectsSchema(s, a), rest));
    assert forall x | x in attempts :: x == a || x in rest;
  }

  lemma {:induction false} ShownGrows(s: Setup, schema: bool, before: seq<Attempt>, a: Attempt)
    ensures AllShown(s, schema, before + [a])
         == AllShown(s, schema, before) + Shows(s, StillAsked(s, schema, before), a)
    ensures Calls(s, before + [a]) == Calls(s, before) + 1 + if RejectsSchema(s, a) then 1 else 0
    decreases |before|
  {
    hide Shows, RejectsSchema;
    var all := before + [a];
    if before == [] {
      assert all[1..] == [] && all[0] == a;
      assert Shows(s, schema, a) + [] == [] + Shows(s, schema, a);
    } else {
      var later := schema && !RejectsSchema(s, before[0]);
      assert all[1..] == before[1..] + [a];
      ShownGrows(s, later, before[1..], a);
      assert forall x | x in before :: x == before[0] || x in before[1..];
      assert StillAsked(s, later, before[1..]) == StillAsked(s, schema, before);
      var first, last := Shows(s, schema, before[0]), Shows(s, StillAsked(s, schema, before), a);
      assert first + (AllShown(s, later, before[1..]) + last) == (first + AllShown(s, later, before[1..])) + last;
    }
  }

  /** What the user was shown, or a fixed text if that is nothing. */
  function AnswerOf(shown: seq<Claim>, otherwise: Str): Str {
    if shown != [] then Join(Codes(" "), RenderEach(shown)) else otherwise
  }

  /** When every attempt is tried again, the answer is what was shown; without a listener, what the last draft supports,
  or the abstention if there was no draft. */
  lemma RunsOut(s: Setup, attempts: seq<Attempt>)
    requires AllRetried(s, s.jsonSchema, attempts)
    ensures var shown := FirstOccurrences(AllShown(s, s.jsonSchema, attempts));
      var last := LastSupported(s, s.jsonSchema, attempts, None);
      var (answer, end) := Run(s, Fresh(s), attempts);
      && answer == Some(AnswerOf(shown, if last.None? then ABSTENTION else RenderClaims(last.value.supported)))
      && end.committed == shown && end.calls == Calls(s, attempts)
  {
    hide AllShown, LastSupported, StillAsked, Calls, AllRetried, FirstOccurrences, CommitAll, RenderEach;
    RetriesGoOn(s, Fresh(s), attempts, []);
    assert attempts + [] == attempts;
    CommitIsDeduplication(AllShown(s, s.jsonSchema, attempts));
  }

  /** The first attempt that is not tried again ends the run, whatever would come after it. A conclusive draft, a
  refusal and a timeout answer with what was shown; if that is nothing, with what the draft supports, with the
  abstention, and with the apology. An error has no answer. */
  lemma RunEndsAt(s: Setup, before: seq<Attempt>, a: Attempt, rest: seq<Attempt>)
    requires AllRetried(s, s.jsonSchema, before)
    requires !Retried(s, Meets(s, StillAsked(s, s.jsonSchema, before), a))
    ensures var m := Meets(s, StillAsked(s, s.jsonSchema, before), a);
      var shown := FirstOccurrences(AllShown(s, s.jsonSchema, before + [a]));
      var (answer, end) := Run(s, Fresh(s), before + ([a] + rest));
      && end.committed == shown
      && (m.Got? && !Refusal(m) ==>
            Brought(s, m).Some?
            && answer == Some(AnswerOf(shown, RenderClaims(SupportedClaims(s.verifier, Brought(s, m).value)))))
      && (Refusal(m) ==> answer == Some(AnswerOf(shown, ABSTENTION)))
      && (m.Late? ==> answer == Some(AnswerOf(shown, TIMED_OUT)))
      && (m.Broken? ==> answer == None)
      && (!m.Broken? ==> end.calls == Calls(s, before + [a]))
  {
    hide AllShown, LastSupported, StillAsked, Calls, AllRetried, FirstOccurrences, CommitAll, RenderEach, Shows, Meets,
         SupportedClaims, Try, Run, Retried, Refusal, Brought, RejectsSchema;
    var g := AfterAll(s, Fresh(s), before);
    RetriesGoOn(s, Fresh(s), before, [a] + rest);
    RunStep(s, g, [a] + rest);
    assert ([a] + rest)[0] == a && ([a] + rest)[1..] == rest;
    ShownGrows(s, s.jsonSchema, before, a);
    CommitConcat([], AllShown(s, s.jsonSchema, before), Shows(s, g.schema, a));
    CommitIsDeduplication(AllShown(s, s.jsonSchema, before + [a]));
    if Meets(s, g.schema, a).Got? {
      AttemptTaken(s, g, a);
      LeavesBrought(s, Meets(s, g.schema, a));
    } else {
      AttemptEnds(s, g, a);
      LateAsks(s, g.schema, a);
    }
  }

  lemma LeavesBrought(s: Setup, m: Met)
    requires m.Got? && !Retried(s, m)
    ensures !Refusal(m) ==> Brought(s, m).Some?
    ensures Refusal(m) ==> m.Got?
  {
    hide ParseAnswerDraft, Conclusive;
  }

  lemma LateAsks(s: Setup, schema: bool, a: Attempt)
    requires !Meets(s, schema, a).Got?
    ensures Meets(s, schema, a).Late? ==> !RejectsSchema(s, a)
    ensures !Refusal(Meets(s, schema, a))
  {
  }
}
