/** The retry loop of `_generate_guarded_answer` and its one invariant: the answer is what the user was shown.

The provider is arbitrary. `Attempt` says what each kind of call would meet in one
attempt; timings, flags and confidence are left out. */
module GuardedAnswer {
  import opened Text
  import opened Json
  import opened AnswerDraft
  import opened DraftReader
  import DraftAgreement
  import FirstArray

  datatype Reply = Plain(text: string) | Structured(text: string, refused: bool, incomplete: bool)

  datatype Completion = Answered(reply: Reply) | CallTimedOut | CallUnsupported | CallFailed

  datatype StreamEnd = Finished | TimedOut | Unsupported | Failed

  /** The chunks that arrive and how the stream ends, a whole completion, and the completion that
  is asked for after the schema was rejected. */
  datatype Attempt = Attempt(chunks: seq<string>, end: StreamEnd, whole: Completion, fallback: Completion)

  datatype Setup = Setup(
    verifier: Verifier, onClaim: bool, canStream: bool, jsonSchema: bool, maxRetries: int, cap: int)
  {
    function MaxAttempts(): int {
      var wanted := if maxRetries > 0 then maxRetries else 0;
      1 + if wanted < cap then wanted else cap
    }

    predicate Streaming() {
      onClaim && canStream
    }

    function Known(): set<Str> {
      verifier.evidence.Keys
    }
  }

  // ---------------------------------------------------------------- committing claims

  type ClaimKey = (Str, set<Str>)

  function KeyOf(c: Claim): ClaimKey {
    (c.text, set id | id in c.evidenceIds)
  }

  function KeysOf(cs: seq<Claim>): set<ClaimKey> {
    set c | c in cs :: KeyOf(c)
  }

  function WithClaim(committed: seq<Claim>, c: Claim): seq<Claim> {
    if KeyOf(c) in KeysOf(committed) then committed else committed + [c]
  }

  function CommitAll(committed: seq<Claim>, cs: seq<Claim>): seq<Claim> {
    if cs == [] then committed else WithClaim(CommitAll(committed, cs[..|cs| - 1]), cs[|cs| - 1])
  }

  /** The claims without repetitions, each where it first stood. */
  function FirstOccurrences(cs: seq<Claim>): seq<Claim> {
    if cs == [] then []
    else
      var n := |cs| - 1;
      FirstOccurrences(cs[..n]) + if exists j | 0 <= j < n :: KeyOf(cs[j]) == KeyOf(cs[n]) then [] else [cs[n]]
  }

  // ---------------------------------------------------------------- the loop as a transition system

  datatype Judged = Judged(supported: seq<Claim>)

  datatype Gen = Gen(committed: seq<Claim>, result: Option<Judged>, schema: bool, calls: nat)

  /** `Next` goes on to the next attempt, `Leave` breaks out of the loop, `Return` and `Raise` end the call. */
  datatype Step = Next(g: Gen) | Leave(g: Gen) | Return(g: Gen, answer: Str) | Raise(g: Gen)

  function Fresh(s: Setup): Gen {
    Gen([], None, s.jsonSchema, 0)
  }

  /** Every early return: the committed claims if there are any, otherwise a fixed text. */
  function Exit(g: Gen, otherwise: Str): Step {
    Return(g, if g.committed != [] then RenderClaims(g.committed) else otherwise)
  }

  function Judge(s: Setup, g: Gen, reply: Reply): Step {
    if reply.Structured? && reply.refused then Exit(g, ABSTENTION)
    else if reply.Structured? && reply.incomplete then Next(g)
    else match ParseAnswerDraft(reply.text, s.Known())
      case None => Next(g)
      case Some(d) =>
        var supported := SupportedClaims(s.verifier, d);
        var committed := if s.onClaim then CommitAll(g.committed, supported) else g.committed;
        var g' := g.(result := Some(Judged(supported)), committed := committed);
        if d.abstain || FullySupported(s.verifier, d) then Leave(g') else Next(g')
  }

  /** After `SchemaUnsupportedError`. A fallback that does not answer raises out of the handler. */
  function Downgrade(s: Setup, g: Gen, a: Attempt): Step {
    if !g.schema then Raise(g)
    else
      var g' := g.(schema := false, calls := g.calls + 1);
      match a.fallback
      case Answered(reply) => Judge(s, g', reply)
      case _ => Raise(g')
  }

  function Try(s: Setup, g: Gen, a: Attempt): Step {
    var g' := g.(calls := g.calls + 1);
    if s.Streaming() then
      var streamed := SupportedOnly(s.verifier, FeedAll(s.Known(), a.chunks).1);
      var g'' := g'.(committed := CommitAll(g'.committed, streamed));
      match a.end
      case Finished => Judge(s, g'', Plain(Flatten(a.chunks)))
      case TimedOut => Exit(g'', TIMED_OUT)
      case Unsupported => Downgrade(s, g'', a)
      case Failed => Raise(g'')
    else
      match a.whole
      case Answered(reply) => Judge(s, g', reply)
      case CallTimedOut => Exit(g', TIMED_OUT)
      case CallUnsupported => Downgrade(s, g', a)
      case CallFailed => Raise(g')
  }

  function Finish(g: Gen): Str {
    if g.committed != [] then RenderClaims(g.committed)
    else if g.result.None? then ABSTENTION
    else RenderClaims(g.result.value.supported)
  }

  /** The answer, or None when an exception escapes, and the state the call ends in. */
  function Run(s: Setup, g: Gen, attempts: seq<Attempt>): (Option<Str>, Gen)
    decreases |attempts|
  {
    if attempts == [] then (Some(Finish(g)), g)
    else match Try(s, g, attempts[0])
      case Next(g') => Run(s, g', attempts[1..])
      case Leave(g') => (Some(Finish(g')), g')
      case Return(g', answer) => (Some(answer), g')
      case Raise(g') => (None, g')
  }

  // ---------------------------------------------------------------- the loop as it is

  /** How control leaves one piece of the loop body. */
  datatype Control = Continue | Break | Returned(answer: Str) | Raised

  function AsStep(c: Control, g: Gen): Step {
    match c
    case Continue => Next(g)
    case Break => Leave(g)
    case Returned(answer) => Return(g, answer)
    case Raised => Raise(g)
  }

  /** One call of `_generate_guarded_answer`: the variables that its loop and its inner functions share. */
  class GuardedRun {
    const setup: Setup
    var committed: seq<Claim>
    var committedKeys: set<ClaimKey>
    /** The texts passed to `on_claim`, in order. */
    var shown: seq<Str>
    var result: Option<Judged>
    var schema: bool
    var calls: nat

    predicate Valid()
      reads this
    {
      committedKeys == KeysOf(committed) && shown == RenderEach(committed)
    }

    function Model(): Gen
      reads this
    {
      Gen(committed, result, schema, calls)
    }

    constructor (s: Setup)
      ensures Valid() && setup == s && Model() == Fresh(s)
    {
      setup := s;
      committed, committedKeys, shown := [], {}, [];
      result, schema, calls := None, s.jsonSchema, 0;
    }

    /** `_commit`: emit a claim once. */
    method Commit(c: Claim)
      requires Valid()
      modifies this`committed, this`committedKeys, this`shown
      ensures Valid() && committed == WithClaim(old(committed), c)
    {
      hide RenderClaim;
      var key := KeyOf(c);
      if key in committedKeys { return; }
      committedKeys := committedKeys + {key};
      committed := committed + [c];
      shown := shown + [RenderClaim(c)];
    }

    method CommitEach(cs: seq<Claim>)
      requires Valid()
      modifies this`committed, this`committedKeys, this`shown
      ensures Valid() && committed == CommitAll(old(committed), cs)
    {
      hide KeysOf, RenderEach;
      for i := 0 to |cs|
        invariant Valid() && committed == CommitAll(old(committed), cs[..i])
      {
        Commit(cs[i]);
        assert cs[..i + 1][..i] == cs[..i];
      }
      assert cs[..|cs|] == cs;
    }

    /** Of the claims that one feed yields, commit those that verify. */
    method CommitVerified(claims: seq<Claim>)
      requires Valid()
      modifies this`committed, this`committedKeys, this`shown
      ensures Valid() && committed == CommitAll(old(committed), SupportedOnly(setup.verifier, claims))
    {
      hide Supported, KeysOf, RenderEach;
      for i := 0 to |claims|
        invariant Valid() && committed == CommitAll(old(committed), SupportedOnly(setup.verifier, claims[..i]))
      {
        assert claims[..i + 1][..i] == claims[..i];
        ghost var before := SupportedOnly(setup.verifier, claims[..i]);
        if Supported(setup.verifier, claims[i]) {
          Commit(claims[i]);
          assert (before + [claims[i]])[..|before|] == before;
        } else {
          assert before + [] == before;
        }
      }
      assert claims[..|claims|] == claims;
    }

    /** Feed one stream to a new reader and commit what verifies as it comes out. */
    method CommitStream(chunks: seq<string>)
      requires Valid()
      modifies this`committed, this`committedKeys, this`shown
      ensures Valid()
      ensures committed == CommitAll(old(committed), SupportedOnly(setup.verifier, FeedAll(setup.Known(), chunks).1))
    {
      hide Fed, CommitAll, KeysOf, RenderEach;
      var reader := new IncrementalDraftReader(setup.Known());
      ghost var out: seq<Claim> := [];
      CommitNone(committed);
      for i := 0 to |chunks|
        invariant Valid() && WellFormed(reader.Model()) && reader.evidenceIds == setup.Known()
        invariant FeedAll(setup.Known(), chunks[..i]) == (reader.Model(), out)
        invariant committed == CommitAll(old(committed), SupportedOnly(setup.verifier, out))
      {
        var claims := reader.Feed(chunks[i]);
        assert chunks[..i + 1][..i] == chunks[..i];
        CommitVerified(claims);
        SupportedConcat(setup.verifier, out, claims);
        CommitConcat(old(committed), SupportedOnly(setup.verifier, out), SupportedOnly(setup.verifier, claims));
        out := out + claims;
      }
      assert chunks[..|chunks|] == chunks;
    }

    /** `_committed_answer`, or the fixed text when nothing was committed. */
    method CommittedAnswer(otherwise: Str) returns (c: Control)
      requires Valid()
      ensures AsStep(c, Model()) == Exit(Model(), otherwise)
    {
      c := Returned(if committed != [] then RenderClaims(committed) else otherwise);
    }

    /** What an attempt does with the reply it got. */
    method JudgeReply(reply: Reply) returns (c: Control)
      requires Valid()
      modifies this
      ensures Valid() && AsStep(c, Model()) == Judge(setup, old(Model()), reply)
    {
      hide ParseAnswerDraft, SupportedClaims, FullySupported, CommitAll, RenderClaims, KeysOf, RenderEach;
      if reply.Structured? {
        if reply.refused {
          c := CommittedAnswer(ABSTENTION);
          return;
        }
        if reply.incomplete { return Continue; }
      }
      var draft := ParseAnswerDraft(reply.text, setup.Known());
      if draft.None? { return Continue; }
      var supported := SupportedClaims(setup.verifier, draft.value);
      result := Some(Judged(supported));
      if setup.onClaim { CommitEach(supported); }
      c := if draft.value.abstain || FullySupported(setup.verifier, draft.value) then Break else Continue;
    }

    /** The handler of `SchemaUnsupportedError`: once, ask again without the schema. */
    method AskWithoutSchema(fallback: Completion) returns (c: Control)
      requires Valid()
      modifies this
      ensures Valid()
      ensures forall a: Attempt | a.fallback == fallback :: AsStep(c, Model()) == Downgrade(setup, old(Model()), a)
    {
      hide Judge, KeysOf, RenderEach;
      if !schema { return Raised; }
      schema := false;
      calls := calls + 1;
      match fallback {
        case Answered(reply) => c := JudgeReply(reply);
        case _ => c := Raised;
      }
    }

    method TryOnce(a: Attempt) returns (c: Control)
      requires Valid()
      modifies this
      ensures Valid() && AsStep(c, Model()) == Try(setup, old(Model()), a)
    {
      hide Judge, Downgrade, Exit, FeedAll, SupportedOnly, CommitAll, KeysOf, RenderEach;
      calls := calls + 1;
      if setup.Streaming() {
        CommitStream(a.chunks);
        match a.end {
          case Finished => c := JudgeReply(Plain(Flatten(a.chunks)));
          case TimedOut => c := CommittedAnswer(TIMED_OUT);
          case Unsupported => c := AskWithoutSchema(a.fallback);
          case Failed => c := Raised;
        }
      } else {
        match a.whole {
          case Answered(reply) => c := JudgeReply(reply);
          case CallTimedOut => c := CommittedAnswer(TIMED_OUT);
          case CallUnsupported => c := AskWithoutSchema(a.fallback);
          case CallFailed => c := Raised;
        }
      }
    }

    /** The whole call, from a fresh run. */
    method Generate(provider: seq<Attempt>) returns (answer: Option<Str>)
      requires Valid() && Model() == Fresh(setup) && setup.MaxAttempts() <= |provider|
      modifies this
      ensures Valid() && (answer, Model()) == Run(setup, Fresh(setup), Attempts(setup, provider))
      ensures answer.Some? && shown != [] ==> answer.value == Join(Codes(" "), shown)
      ensures answer.Some? && shown == [] && setup.onClaim ==> answer.value in {ABSTENTION, TIMED_OUT}
      ensures setup.MaxAttempts() > 0 ==> calls <= setup.MaxAttempts() + 1
    {
      hide Try, RenderClaims, KeysOf, RenderEach;
      ghost var all := Attempts(setup, provider);
      RunBounds(setup, Fresh(setup), all);
      RunShows(setup, Fresh(setup), all);
      RenderNothing();
      var attempt := 0;
      while attempt < setup.MaxAttempts()
        invariant 0 <= attempt <= |all| && Valid()
        invariant Run(setup, Model(), all[attempt..]) == Run(setup, Fresh(setup), all)
      {
        assert all[attempt..][0] == provider[attempt] && all[attempt..][1..] == all[attempt + 1..];
        var c := TryOnce(provider[attempt]);
        attempt := attempt + 1;
        match c {
          case Continue =>
          case Break => break;
          case Returned(text) => return Some(text);
          case Raised => return None;
        }
      }
      if committed != [] { return Some(RenderClaims(committed)); }
      if result.None? { return Some(ABSTENTION); }
      return Some(RenderClaims(result.value.supported));
    }
  }

  function Attempts(s: Setup, provider: seq<Attempt>): seq<Attempt>
    requires s.MaxAttempts() <= |provider|
  {
    provider[..if s.MaxAttempts() < 0 then 0 else s.MaxAttempts()]
  }

  lemma RenderNothing()
    ensures forall cs: seq<Claim> :: RenderEach(cs) == [] <==> cs == []
  {
  }

  lemma CommitNone(committed: seq<Claim>)
    ensures CommitAll(committed, []) == committed
  {
  }

  lemma {:induction false} CommitConcat(committed: seq<Claim>, a: seq<Claim>, b: seq<Claim>)
    ensures CommitAll(committed, a + b) == CommitAll(CommitAll(committed, a), b)
  {
    hide WithClaim;
    if b == [] {
      assert a + b == a;
    } else {
      assert (a + b)[..|a + b| - 1] == a + b[..|b| - 1];
      CommitConcat(committed, a, b[..|b| - 1]);
    }
  }

  lemma {:induction false} SupportedConcat(v: Verifier, a: seq<Claim>, b: seq<Claim>)
    ensures SupportedOnly(v, a + b) == SupportedOnly(v, a) + SupportedOnly(v, b)
  {
    hide Supported;
    if b == [] {
      assert a + b == a;
    } else {
      assert (a + b)[..|a + b| - 1] == a + b[..|b| - 1];
      SupportedConcat(v, a, b[..|b| - 1]);
    }
  }

  // ---------------------------------------------------------------- what every run keeps

  /** The committed claims are distinct, verified and in first-come order. */
  ghost predicate Sound(s: Setup, committed: seq<Claim>) {
    && (forall i, j | 0 <= i < j < |committed| :: KeyOf(committed[i]) != KeyOf(committed[j]))
    && (forall c | c in committed :: Supported(s.verifier, c))
    && (!s.onClaim ==> committed == [])
  }

  /** With a listener, what the last accepted draft supports has been emitted. */
  ghost predicate Complete(s: Setup, g: Gen) {
    s.onClaim && g.result.Some? ==> KeysOf(g.result.value.supported) <= KeysOf(g.committed)
  }

  lemma {:induction false} CommitKeys(committed: seq<Claim>, cs: seq<Claim>)
    ensures committed <= CommitAll(committed, cs)
    ensures KeysOf(CommitAll(committed, cs)) == KeysOf(committed) + KeysOf(cs)
  {
    hide KeyOf;
    if cs != [] {
      var init, c := cs[..|cs| - 1], cs[|cs| - 1];
      CommitKeys(committed, init);
      assert cs == init + [c];
      var before := CommitAll(committed, init);
      assert KeysOf(cs) == KeysOf(init) + {KeyOf(c)};
      assert KeysOf(before + [c]) == KeysOf(before) + {KeyOf(c)};
    }
  }

  lemma {:induction false} CommitKeeps(s: Setup, committed: seq<Claim>, cs: seq<Claim>)
    requires Sound(s, committed) && s.onClaim && forall c | c in cs :: Supported(s.verifier, c)
    ensures Sound(s, CommitAll(committed, cs))
  {
    hide Supported, KeyOf;
    if cs != [] { CommitKeeps(s, committed, cs[..|cs| - 1]); }
  }

  lemma {:induction false} OnlySupported(v: Verifier, cs: seq<Claim>)
    ensures forall c | c in SupportedOnly(v, cs) :: Supported(v, c)
  {
    hide Supported;
    if cs != [] { OnlySupported(v, cs[..|cs| - 1]); }
  }

  /** One attempt keeps the invariant, drops no committed claim, and costs one call, or two the one time
  the schema is given up. */
  ghost predicate Follows(s: Setup, g: Gen, step: Step) {
    && (Sound(s, g.committed) ==> Sound(s, step.g.committed) && g.committed <= step.g.committed)
    && (g.schema == step.g.schema || !step.g.schema)
    && (Complete(s, g) ==> Complete(s, step.g))
    && (step.Return? && step.g.committed != [] ==> step.answer == RenderClaims(step.g.committed))
    && (step.Return? && step.g.committed == [] ==> step.answer in {ABSTENTION, TIMED_OUT})
  }

  lemma JudgeKeeps(s: Setup, g: Gen, reply: Reply)
    ensures Follows(s, g, Judge(s, g, reply))
    ensures Judge(s, g, reply).g.schema == g.schema && Judge(s, g, reply).g.calls == g.calls
    ensures !Judge(s, g, reply).Raise?
  {
    hide ParseAnswerDraft, FullySupported, Supported, SupportedOnly, RenderClaims, Sound, CommitAll, KeysOf;
    match ParseAnswerDraft(reply.text, s.Known()) {
      case None =>
      case Some(d) =>
        CommitKeys(g.committed, SupportedClaims(s.verifier, d));
        OnlySupported(s.verifier, d.claims);
        if Sound(s, g.committed) && s.onClaim { CommitKeeps(s, g.committed, SupportedClaims(s.verifier, d)); }
    }
  }

  lemma TryKeeps(s: Setup, g: Gen, a: Attempt)
    ensures Follows(s, g, Try(s, g, a))
    ensures Try(s, g, a).g.calls <= g.calls + 1 + if g.schema && !Try(s, g, a).g.schema then 1 else 0
  {
    hide Judge, Supported, SupportedOnly, RenderClaims, Sound, CommitAll, FeedAll, KeysOf;
    var g' := g.(calls := g.calls + 1);
    if s.Streaming() {
      var out := FeedAll(s.Known(), a.chunks).1;
      CommitKeys(g.committed, SupportedOnly(s.verifier, out));
      OnlySupported(s.verifier, out);
      if Sound(s, g.committed) { CommitKeeps(s, g.committed, SupportedOnly(s.verifier, out)); }
      g' := g'.(committed := CommitAll(g.committed, SupportedOnly(s.verifier, out)));
      JudgeKeeps(s, g', Plain(Flatten(a.chunks)));
    } else if a.whole.Answered? {
      JudgeKeeps(s, g', a.whole.reply);
    }
    if a.fallback.Answered? { JudgeKeeps(s, g'.(schema := false, calls := g'.calls + 1), a.fallback.reply); }
  }

  /** Every run, whatever the provider does: emitted claims are distinct and verified, none is ever
  taken back, and there is at most one call more than attempts. */
  lemma {:induction false} RunBounds(s: Setup, g: Gen, attempts: seq<Attempt>)
    requires Sound(s, g.committed)
    ensures var end := Run(s, g, attempts).1;
      && Sound(s, end.committed) && g.committed <= end.committed
      && end.calls <= g.calls + |attempts| + if g.schema then 1 else 0
    decreases |attempts|
  {
    hide Try, Sound;
    if attempts != [] {
      TryKeeps(s, g, attempts[0]);
      if Try(s, g, attempts[0]).Next? { RunBounds(s, Try(s, g, attempts[0]).g, attempts[1..]); }
    }
  }

  /** Every run that returns after emitting something returns the join of what it emitted. With a listener,
  the last accepted draft is emitted in full, and an answer that was not emitted is one of two fixed texts. */
  lemma {:induction false} RunShows(s: Setup, g: Gen, attempts: seq<Attempt>)
    requires Complete(s, g)
    ensures var (answer, end) := Run(s, g, attempts);
      && (answer.Some? && end.committed != [] ==> answer.value == Join(Codes(" "), RenderEach(end.committed)))
      && (answer.Some? && end.committed == [] && s.onClaim ==> answer.value in {ABSTENTION, TIMED_OUT})
      && Complete(s, end)
    decreases |attempts|
  {
    hide Try, RenderEach, Complete;
    if attempts == [] {
      NothingLeft(s, g);
    } else {
      TryKeeps(s, g, attempts[0]);
      NothingLeft(s, Try(s, g, attempts[0]).g);
      if Try(s, g, attempts[0]).Next? { RunShows(s, Try(s, g, attempts[0]).g, attempts[1..]); }
    }
  }

  lemma NothingLeft(s: Setup, g: Gen)
    requires Complete(s, g)
    ensures s.onClaim && g.committed == [] && g.result.Some? ==> g.result.value.supported == []
  {
    hide KeyOf;
    if g.result.Some? {
      var cs := g.result.value.supported;
      assert forall c | c in cs :: KeyOf(c) in KeysOf(cs);
      assert cs == [] || cs[0] in cs;
    }
  }

  // ---------------------------------------------------------------- streaming against not streaming

  /** The keys of a prefix decide whether a claim is a repetition. */
  lemma {:induction false} CommitIsDeduplication(cs: seq<Claim>)
    ensures CommitAll([], cs) == FirstOccurrences(cs)
    ensures KeysOf(CommitAll([], cs)) == KeysOf(cs)
  {
    hide KeyOf;
    if cs != [] {
      var init, c := cs[..|cs| - 1], cs[|cs| - 1];
      CommitIsDeduplication(init);
      assert cs == init + [c];
      assert KeysOf(cs) == KeysOf(init) + {KeyOf(c)};
      assert KeyOf(c) in KeysOf(init) <==> exists j | 0 <= j < |init| :: KeyOf(cs[j]) == KeyOf(c) by {
        KeyAmong(init, c);
      }
      var before := CommitAll([], init);
      assert KeysOf(before + [c]) == KeysOf(before) + {KeyOf(c)};
      assert before + [] == before;
    }
  }

  lemma KeyAmong(cs: seq<Claim>, c: Claim)
    ensures KeyOf(c) in KeysOf(cs) <==> exists j | 0 <= j < |cs| :: KeyOf(cs[j]) == KeyOf(c)
  {
    hide KeyOf;
  }

  /** Committing claims that are all committed already changes nothing. */
  lemma {:induction false} CommitAgain(committed: seq<Claim>, cs: seq<Claim>)
    requires KeysOf(cs) <= KeysOf(committed)
    ensures CommitAll(committed, cs) == committed
  {
    hide KeyOf;
    if cs != [] {
      var init, c := cs[..|cs| - 1], cs[|cs| - 1];
      assert cs == init + [c];
      assert KeysOf(cs) == KeysOf(init) + {KeyOf(c)};
      CommitAgain(committed, init);
    }
  }

  lemma {:induction false} AllSupported(v: Verifier, cs: seq<Claim>)
    requires forall c | c in cs :: Supported(v, c)
    ensures SupportedOnly(v, cs) == cs
  {
    hide Supported;
    if cs != [] {
      AllSupported(v, cs[..|cs| - 1]);
      assert cs == cs[..|cs| - 1] + [cs[|cs| - 1]];
    }
  }

  /** An accepted draft whose first array, as the reader finds it, holds the draft's own claims or none that stream;
  that is, one of which the reader shows only what the draft says. */
  predicate Streamable(known: set<Str>, t: string) {
    ParseAnswerDraft(t, known).Some? && var d := ParseAnswerDraft(t, known).value;
    FirstArray.FirstClaims(known, t) in {[], if d.abstain then [] else d.claims}
  }

  /** Every accepted draft in schema order is one, and every one in which no object repeats a key. */
  lemma StreamableWhen(known: set<Str>, t: string)
    requires ParseAnswerDraft(t, known).Some?
    requires DraftAgreement.SchemaOrdered(t) || DraftAgreement.SingleKeys(Loads(t).value)
    ensures Streamable(known, t)
  {
    hide DraftOf, Loads, DraftAgreement.SchemaOrdered, DraftAgreement.SingleKeys, FirstArray.FirstClaims, Flatten,
         FeedAll;
    FirstArray.WholeIsFirstArray(known, t);
    FirstArray.OneFeed(known, t);
    DraftAgreement.OneChunk(t);
    if DraftAgreement.SchemaOrdered(t) {
      DraftAgreement.StreamsTheDraft(known, t, [t]);
    } else {
      DraftAgreement.StreamsDraftOrNothing(known, t, [t]);
    }
  }

  lemma StreamsNothingElse(known: set<Str>, t: string, chunks: seq<string>)
    requires Streamable(known, t) && Flatten(chunks) == t
    ensures var d := ParseAnswerDraft(t, known).value;
      FeedAll(known, chunks).1 in {[], if d.abstain then [] else d.claims}
  {
    hide DraftOf, Loads, FirstArray.FirstClaims, Flatten, FeedAll;
    FirstArray.StreamsTheFirstArray(known, t);
  }

  /** Streaming such a draft only shows it earlier: the attempt ends as if the whole reply had come at once. */
  lemma StreamingIsJudging(s: Setup, g: Gen, a: Attempt)
    requires s.Streaming() && a.end == Finished && Streamable(s.Known(), Flatten(a.chunks))
    ensures Try(s, g, a) == Judge(s, g.(calls := g.calls + 1), Plain(Flatten(a.chunks)))
  {
    hide ParseAnswerDraft, FeedAll, SupportedOnly, CommitAll, KeysOf, FullySupported, FirstArray.FirstClaims;
    var t := Flatten(a.chunks);
    var d := ParseAnswerDraft(t, s.Known()).value;
    var supported := SupportedOnly(s.verifier, d.claims);
    StreamsNothingElse(s.Known(), t, a.chunks);
    NoneSupported(s.verifier);
    CommitNone(g.committed);
    CommitKeys(g.committed, supported);
    CommitAgain(CommitAll(g.committed, supported), supported);
  }

  lemma NoneSupported(v: Verifier)
    ensures SupportedOnly(v, []) == []
  {
  }

  /** A reply that is complete and says `t`. */
  predicate Says(c: Completion, t: string) {
    c.Answered? && c.reply in {Plain(t), Structured(t, false, false)}
  }

  /** The provider gives the same draft as a stream and as a whole reply. */
  predicate Alike(s: Setup, a: Attempt) {
    && a.end == Finished && Streamable(s.Known(), Flatten(a.chunks))
    && Says(a.whole, Flatten(a.chunks))
  }

  lemma TryAlike(s: Setup, g: Gen, a: Attempt)
    requires s.onClaim && Alike(s, a)
    ensures Try(s.(canStream := true), g, a) == Try(s.(canStream := false), g, a)
  {
    hide Streamable, ParseAnswerDraft, FeedAll, SupportedClaims, SupportedOnly, CommitAll, FullySupported, Flatten;
    StreamingIsJudging(s.(canStream := true), g, a);
  }

  /** For a listener, a run that streams and one that does not end in the same state with the same answer. */
  lemma {:induction false} RunAlike(s: Setup, g: Gen, attempts: seq<Attempt>)
    requires s.onClaim && forall a | a in attempts :: Alike(s, a)
    ensures Run(s.(canStream := true), g, attempts) == Run(s.(canStream := false), g, attempts)
    decreases |attempts|
  {
    hide Try, Alike;
    if attempts != [] {
      TryAlike(s, g, attempts[0]);
      var step := Try(s.(canStream := true), g, attempts[0]);
      if step.Next? { RunAlike(s, step.g, attempts[1..]); }
    }
  }

  /** The answer to one such draft, all of whose claims verify. Streamed in any chunks, it is the answer that the same
  draft gets without a listener, with repeated claims left out. */
  lemma StreamedIsDeduplicated(s: Setup, t: string, a: Attempt, b: Attempt, rest: seq<Attempt>)
    requires Streamable(s.Known(), t)
    requires var d := ParseAnswerDraft(t, s.Known()).value;
      !d.abstain && forall c | c in d.claims :: Supported(s.verifier, c)
    requires Flatten(a.chunks) == t && a.end == Finished && Says(b.whole, t)
    ensures var claims := ParseAnswerDraft(t, s.Known()).value.claims;
      var streaming, silent := s.(onClaim := true, canStream := true), s.(onClaim := false);
      && Run(streaming, Fresh(streaming), [a] + rest).0 == Some(RenderClaims(FirstOccurrences(claims)))
      && Run(streaming, Fresh(streaming), [a] + rest).1.committed == FirstOccurrences(claims)
      && Run(silent, Fresh(silent), [b] + rest).0 == Some(RenderClaims(claims))
  {
    hide ParseAnswerDraft, Supported, RenderClaims, SupportedOnly, CommitAll, FirstOccurrences, FeedAll, KeysOf,
         FirstArray.FirstClaims;
    var d := ParseAnswerDraft(t, s.Known()).value;
    var streaming := s.(onClaim := true, canStream := true);
    StreamingIsJudging(streaming, Fresh(streaming), a);
    AllSupported(s.verifier, d.claims);
    CommitIsDeduplication(d.claims);
    assert ([a] + rest)[0] == a && ([b] + rest)[0] == b;
    NoOccurrences(d.claims);
  }

  lemma NoOccurrences(cs: seq<Claim>)
    ensures FirstOccurrences([]) == []
    ensures FirstOccurrences(cs) == [] ==> cs == []
  {
    CommitIsDeduplication(cs);
    if cs != [] { assert KeyOf(cs[0]) in KeysOf(cs); }
  }

  // ---------------------------------------------------------------- a claim that was streamed

  /** An attempt that streams just `c`, which verifies, shows it, and the run keeps it. */
  lemma ShownIsAnswered(s: Setup, a: Attempt, rest: seq<Attempt>, c: Claim)
    requires s.Streaming() && a.end == Finished && FeedAll(s.Known(), a.chunks).1 == [c] && Supported(s.verifier, c)
    ensures var (answer, end) := Run(s, Fresh(s), [a] + rest);
      && end.committed != [] && end.committed[0] == c
      && (answer.Some? ==> answer.value == Join(Codes(" "), RenderEach(end.committed)))
  {
    hide FeedAll, Judge, Supported, SupportedOnly, CommitAll, KeysOf, RenderEach, Sound, Complete;
    var g := Fresh(s).(calls := 1, committed := [c]);
    var step := Judge(s, g, Plain(Flatten(a.chunks)));
    OneIsCommitted(s, c);
    assert Try(s, Fresh(s), a) == step;
    JudgeKeeps(s, g, Plain(Flatten(a.chunks)));
    NothingSound(s);
    RunShows(s, Fresh(s), [a] + rest);
    assert ([a] + rest)[0] == a && ([a] + rest)[1..] == rest;
    if step.Next? { RunBounds(s, step.g, rest); }
  }

  lemma OneIsCommitted(s: Setup, c: Claim)
    requires s.onClaim && Supported(s.verifier, c)
    ensures CommitAll([], SupportedOnly(s.verifier, [c])) == [c] && Sound(s, [c])
  {
    hide Supported, KeyOf;
    assert [c][..0] == [] && [] + [c] == [c];
    assert SupportedOnly(s.verifier, []) == [] && CommitAll([], []) == [];
  }

  lemma NothingSound(s: Setup)
    ensures Complete(s, Fresh(s))
  {
  }
}
