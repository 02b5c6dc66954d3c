/** What a repeated key can do to an answer. */
module RepeatedKeysAnswers {
  import opened Text
  import opened AnswerDraft
  import opened DraftReader
  import opened GuardedAnswer
  import opened DraftPrinter
  import RepeatedKeys

  /** The accepted draft says only `b`; but if `a` verifies, every run that streams the draft first emits `a`, and its
  answer starts with it. */
  lemma HiddenClaimIsAnswered(s: Setup, a: Claim, b: Claim) returns (t: string)
    requires PrintableClaim(a, s.Known()) && PrintableClaim(b, s.Known())
    requires s.Streaming() && Supported(s.verifier, a)
    ensures ParseAnswerDraft(t, s.Known()) == Some(Draft([b], [], false))
    ensures forall x: Attempt, rest | Flatten(x.chunks) == t && x.end == Finished ::
      var (answer, end) := Run(s, Fresh(s), [x] + rest);
      && end.committed != [] && end.committed[0] == a
      && (answer.Some? ==> answer.value == Join(Codes(" "), RenderEach(end.committed)))
  {
    hide PrintableClaim, Supported, ParseAnswerDraft, FeedAll, Flatten, RenderEach, Run;
    t := RepeatedKeys.HiddenClaimsStream(a, b, s.Known());
    forall x: Attempt, rest | Flatten(x.chunks) == t && x.end == Finished
      ensures var (answer, end) := Run(s, Fresh(s), [x] + rest);
        && end.committed != [] && end.committed[0] == a
        && (answer.Some? ==> answer.value == Join(Codes(" "), RenderEach(end.committed)))
    {
      ShownIsAnswered(s, x, rest, a);
    }
  }

  /** The accepted draft abstains; but if its claim verifies, every run that streams it answers with the claim. */
  lemma AbstainedClaimIsAnswered(s: Setup, c: Claim) returns (t: string)
    requires PrintableClaim(c, s.Known()) && s.Streaming() && Supported(s.verifier, c)
    ensures ParseAnswerDraft(t, s.Known()) == Some(Draft([c], [], true))
    ensures forall x: Attempt, rest | Flatten(x.chunks) == t && x.end == Finished ::
      Run(s, Fresh(s), [x] + rest).0 == Some(RenderClaims([c]))
  {
    hide PrintableClaim, Supported, ParseAnswerDraft, FeedAll, Flatten, RenderClaims, CommitAll, SupportedOnly;
    t := RepeatedKeys.RepeatedAbstain(c, s.Known());
    forall x: Attempt, rest | Flatten(x.chunks) == t && x.end == Finished
      ensures Run(s, Fresh(s), [x] + rest).0 == Some(RenderClaims([c]))
    {
      OneIsCommitted(s, c);
      CommitNone([c]);
      assert ([x] + rest)[0] == x;
    }
  }
}
