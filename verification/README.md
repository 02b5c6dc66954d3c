# Agentic search: streamed claims, search runs, and what they promise

This project models the parts of the repository where many steps must add up to one promise, and proves the
promises for every input, every provider and backend, and every run.

**Claim streaming.** `Json` is a parser for RFC 8259 as `json.loads` implements it; `JsonStrings` and `JsonGrammar`
define the legal texts of a value from the value, and prove that the parser reads exactly those. `AnswerDraft` has the
draft rules and the claim verifier, `ClaimRules` what they mean; `DraftReader` has the incremental reader with its
brace scanner and its two key patterns (`KeySearch`). `JsonScan` and `JsonSlice` show that the scanner finds exactly
the object that the parser would parse, `KeyFree` that the key patterns cannot match inside JSON text except at a key.
On these stand the two main results: what the reader streams against what the whole-text parse returns
(`DraftAgreement`, `FirstArray`, `DraftPrinter`, `RepeatedKeys`), and how much the cutting into chunks can matter
(`DraftChunking`). `GuardedAnswer` is the retry loop that emits claims for good and must then answer with exactly
those; `GuardedRuns` says which attempts it repeats, which one ends it, and with what answer; `RepeatedKeysAnswers`
shows what it can answer.

**A search run.** `LoopControl` holds the budget decisions, the partition of requests and the retrieval state,
`Evidence`, `EvidenceRules` and `EvidenceMonotonicity` the judging of a round, `Citations` the labels and their
resolution. `SearchRun` is one turn of `SearchAgentLoop` as a function on values, `SearchInvariants` what every
reachable state keeps, `SearchTurns` what each kind of turn does and when a run ends, `SearchRecords` the counters as
functions of the rounds, `SearchLoop` the loop and its handlers over the objects they update, each proved equal to the
function.

**Smaller engines.** `AgenticRag` (novel queries, stable document numbers), `ResultDedup`, `SearchCache`,
`PromptBudget`, `Mmr`, `OverflowWriter`.

What the outside world does is input: chunks and replies of the model, rows of the backends, the disk. Tokenising,
query normal forms, fingerprints, hashes and host names are arbitrary functions. Scores are reals.

Where the code does not do what its documentation or a reader would expect, the model follows the code:

- A draft whose `abstain` or `claims` key is written with an escape is accepted by the parser, and, if no object in it
  repeats a key, nothing of it streams (`DraftAgreement.StreamsDraftOrNothing`, with a text for every draft in
  `DraftPrinter.EscapedKeysStreamNothing`). `DraftAgreement.StreamsIffPlainInOrder` says exactly when every cutting
  streams all claims.
- The reader is said never to show a claim that the parse would reject. What it shows are the claims of the first array
  that its pattern finds (`FirstArray.WholeIsFirstArray`), so of an accepted draft this is true exactly when that array
  holds the draft's own claims or none that stream (`FirstArray.ShowsTheDraftIff`); always, when no object repeats a key
  (`DraftAgreement.StreamsDraftOrNothing`). With a repeated key it can show a claim of a draft that abstains
  (`RepeatedKeys.RepeatedAbstain`), or a claim that is not the draft's (`RepeatedKeys.HiddenClaimsStream`), and if that
  claim verifies it becomes the answer (`RepeatedKeysAnswers`).
- The reader is said to give up when `claims` comes before `abstain`. It does not when both keys arrive in one chunk, so
  what is shown depends on the cutting; `DraftChunking.ChunkingNeverMattersIff` gives the exact condition.
- A search limit that is not positive limits nothing (`SearchInvariants.BudgetIff`).
- `mmr_rerank` divides by the largest score; when all scores are negative this turns the order around
  (`Mmr.SourceOrder`, `Mmr.NegativeScoresReverse`). It diversifies sources exactly for `lambda` below one half
  (`Mmr.DiversityIff`).
- The evidence score is called monotonic in retrieval quality. Under every configuration, giving a query its first
  positive score can lower it (`EvidenceMonotonicity.FirstScoreLowers`; `EvidenceMonotonicity.DefaultsCanFall` has the
  default thresholds). Otherwise higher scores never lower it exactly when there is no minimum average
  (`EvidenceMonotonicity.ScoreIff`), and they never make evidence insufficient exactly when, besides, a minimum top score
  cannot be met by having no scores (`EvidenceMonotonicity.SufficiencyIff`).
- A citation label with leading zeros is read and resolved, but its place in the answer is not found
  (`Citations.PaddedLabel`; the exact condition is in `Citations.FirstReadingIff`).
- After the writer has cut its output, a disk failure makes it print everything that follows, and the bytes between the
  cut and the failure are printed nowhere (`OverflowWriter.AfterFailure`, `OverflowWriter.NothingLostIff`).

## Model

| member | source | states |
|---|---|---|
| KeySearch.PatternIff | src/context/streaming_draft.py:22-23 | A pattern matches at a place, with that end and value, if and only if its quoted key, a colon with any blanks around it, and one of its endings stand there. |
| KeySearch.SearchPrefix | src/context/streaming_draft.py:22-23 | More text never changes the leftmost match of a key pattern: the search of a prefix finds the match of the whole text when that match ends within the prefix, and nothing otherwise. |
| KeySearch.SearchIsFirst | src/context/streaming_draft.py:22-23 | The match found is the leftmost one. |
| JsonScan.ScanMatchesParse | src/context/streaming_draft.py:44-68 | Wherever an object parses, the brace, quote and escape scanner started at its brace stops exactly where the parse ends. |
| JsonSlice.LoadsOfSlice | src/context/streaming_draft.py:135-144 | Parsing the text cut out for one object gives the value that the whole-text parse has there. |
| JsonStrings.SpellingRead | src/context/streaming_draft.py:143 | A string spelled unit by unit in any legal way of RFC 8259 section 7, raw, by a letter or by hexadecimal digits of either case, is read back as itself wherever it stands. |
| JsonStrings.StringIff | src/context/streaming_draft.py:143 | The parser reads a string at a place if and only if a legal spelling of it stands there; nothing else is read. |
| JsonGrammar.NumberIff | src/context/safety.py:67 | A run of number characters is taken for a number if and only if it is an optional minus, an integer without leading zeros, an optional fraction and an optional exponent. |
| JsonGrammar.TreeRead | src/context/safety.py:67 | Any legal text of a value, with any blanks, spellings and repeated keys, is parsed to that value wherever it stands. |
| JsonGrammar.TreeWritten | src/context/safety.py:67 | Whatever the parser accepts at a place is a legal text of the value that it returns. |
| JsonGrammar.LoadsIff | src/context/safety.py:67 | A whole text loads as a value if and only if it is a legal text of that value with blanks around it; the three names that `json.loads` adds for numbers are legal. |
| ClaimRules.AcceptedIff | src/context/safety.py:62-91 | A text is accepted as a draft if and only if it is JSON that says the draft: the three keys and no other, the last value of each of the right kind, and every element a valid claim. |
| ClaimRules.ClaimIff | src/context/safety.py:38-59 | A value builds a claim if and only if it has the two keys and no other, a text that is not blank, and a nonempty list of known evidence; the claim has the text without the blanks at its ends. |
| ClaimRules.OverlapMeans | src/context/grounding.py:33-36 | The overlap is the share of the claim's tokens that the document has: one exactly when it has them all, zero exactly when it has none. |
| ClaimRules.SupportedIff | src/context/safety.py:94-127 | A claim verifies if and only if it cites something, and everything that it cites is known and shares enough of its tokens. |
| ClaimRules.KeptClaims | src/context/safety.py:157-171 | Verification keeps the claims that verify, each as often as it stands in the draft, in order. |
| ClaimRules.DraftSupports | src/context/safety.py:130-195 | Of a draft that does not abstain exactly the claims that verify are supported, with multiplicity; of one that abstains, none. |
| ClaimRules.ClaimShown | src/context/safety.py:206-208 | A claim is shown as its text and then each of its evidence ids in brackets, with blanks between. |
| ClaimRules.ClaimsShown | src/context/safety.py:211-215 | Claims shown together stand in order with a blank between them; no claims are shown as the abstention. |
| DraftReader.FindObject | src/context/streaming_draft.py:26-68 | The scanning loop finds the object, the waiting or the stray element that the specification names, from any start. |
| DraftReader.FirstDecides | src/context/streaming_draft.py:38-43 | The first character that is neither a comma nor a blank of JSON decides between an object, a stray element and waiting. |
| DraftReader.OpensIff | src/context/streaming_draft.py:114 | A buffer may still become a draft if and only if its first character that is not blank, if there is one, is a brace. |
| DraftReader.IncrementalDraftReader.constructor | src/context/streaming_draft.py:74-79 | A new reader has an empty buffer, no verdict on `abstain`, no cursor, and has not given up. |
| DraftReader.IncrementalDraftReader.Feed | src/context/streaming_draft.py:89-133 | One feed takes the reader from its old state to the specified one and yields the specified claims, in every branch. |
| DraftReader.IncrementalDraftReader.ReadClaims | src/context/streaming_draft.py:119-133 | The reading loop yields every complete claim from the cursor on, and leaves the cursor and the give-up flag where the recursive reading ends. |
| DraftChunking.ScanPrefix | src/context/streaming_draft.py:44-68 | An object that is complete in a prefix of the text ends at the same place in the whole text. |
| DraftChunking.ReadPrefix | src/context/streaming_draft.py:119-133 | Reading a prefix and going on from its cursor reads what reading everything at once reads. |
| DraftChunking.AllTracks | src/context/streaming_draft.py:89-133 | After any chunks, the state of the reader and all it has yielded are determined by the text received so far, unless it has given up. |
| DraftChunking.AllOrNothing | src/context/streaming_draft.py:89-133 | For any text and any chunks the total output is either nothing or all that one feed of the whole text yields; so it is always a prefix of that. |
| DraftChunking.ChunkingNeverMattersIff | src/context/streaming_draft.py:93-117 | A text with something to stream is streamed alike under every cutting if and only if the first `abstain` match ends no later than the claims opening and the first non-blank character is a brace. |
| DraftChunking.BadCut | src/context/streaming_draft.py:93-117 | For every text with something to stream that fails this condition, a chunk that ends with the earlier match makes the reader give up with nothing yielded. |
| KeyFree.ObjectHasNoHit | src/context/streaming_draft.py:22-23 | In the text of a whole object in which no key, at any depth, spells the pattern's key plainly or holds a quote, the pattern matches nowhere: not inside strings, not across tokens. |
| KeyFree.TokenIsQuiet | src/context/streaming_draft.py:22-23 | Inside one string token, its quotes included, no match starts, unless the token is an object key that spells the pattern's key plainly or holds a quote. |
| KeyFree.LiteralKey | src/context/streaming_draft.py:22-23 | The characters that a pattern spells are read by the parser as one string token, whose value is that key. |
| DraftAgreement.ReadsAnyArray | src/context/streaming_draft.py:119-144 | From just inside the bracket of any array value, for any blanks and escapes, the reader reads the claims that the parser would build, up to the first element that is no valid claim, and gives up exactly if there is one. |
| DraftAgreement.KeyFound | src/context/streaming_draft.py:22-23 | In the text of any object, the first match of a pattern is at the member that spells its key plainly, when no earlier member holds such a key; it ends where that member's boolean ends, or just inside its bracket. |
| DraftAgreement.OpeningFound | src/context/streaming_draft.py:22-23 | In a draft in schema order the first matches of the two patterns are its own two keys: nothing in `missing_information` is taken for one. |
| DraftAgreement.StreamsTheDraft | src/context/safety.py:62-91 | For every accepted, non-abstaining draft in schema order with plainly spelled searched keys, with any blanks and escapes elsewhere, and every way of cutting it, the streamed claims together are the claims of the whole-text parse. |
| DraftAgreement.StreamsDraftOrNothing | src/context/streaming_draft.py:135-144 | For every accepted draft in which no object repeats a key, with members in any order and keys in any spelling, and every cutting: what streams is nothing or exactly the claims of the parse, none if it abstains; all of them when both searched keys are plain and `abstain` comes first, nothing when one of them is escaped. |
| DraftAgreement.StreamsIffPlainInOrder | src/context/streaming_draft.py:22-23 | Such a draft, if it has claims and does not abstain, streams all of them under every cutting if and only if both searched keys are spelled plainly and `abstain` comes before `claims`. |
| FirstArray.TextOpens | src/context/streaming_draft.py:23 | In any JSON text, wherever the claims pattern matches, inside whatever string or key, its bracket opens an array value of the text. |
| FirstArray.WholeIsFirstArray | src/context/streaming_draft.py:93-133 | One feed of any JSON text yields exactly the valid claims that start the array at the first match of the claims pattern, once the first match of the abstain pattern says no. |
| FirstArray.StreamsTheFirstArray | src/context/streaming_draft.py:89-133 | Every cutting of any JSON text, accepted as a draft or not, streams nothing or exactly those claims; all of them under every cutting if and only if the text is in stream order. |
| FirstArray.ShowsTheDraftIff | src/context/streaming_draft.py:135-144 | Under every cutting the reader shows nothing or exactly what an accepted draft says, if and only if those claims are the draft's or there are none. |
| DraftPrinter.PrintedString | src/context/streaming_draft.py:143 | Every string that JSON can denote, printed as `json.dumps` prints it, with its two-letter escapes, hexadecimal escapes and surrogate pairs, is decoded to itself wherever it stands. |
| DraftPrinter.PrintRoundTrip | src/context/safety.py:67 | Reading what was printed gives the printed value back, for every value, with any legal spelling of its keys. |
| DraftPrinter.PrintedDraft | src/context/safety.py:62-91 | Every valid draft, printed in schema order with any spelling of the two searched keys, parses to itself; cut anyhow, it streams all of its claims if both spellings are plain and none otherwise. |
| DraftPrinter.EscapedKeysStreamNothing | src/context/streaming_draft.py:22-23 | The counterexample, for every draft: a text with one escaped key that the parser accepts as that draft and of which nothing streams under any cutting. |
| RepeatedKeys.RepeatedAbstain | src/context/streaming_draft.py:93-107 | A concrete text for every claim: `abstain` is given twice, no and then yes; the parse accepts it as abstaining, and the claim streams under every cutting. |
| RepeatedKeys.HiddenClaimsStream | src/context/streaming_draft.py:135-144 | A concrete text for any two claims: the draft's own `claims` key is escaped and a claim repeats its `text`, first as an object with a plain `claims` array; the parse accepts the outer claim, and the inner one streams under every cutting. |
| GuardedAnswer.GuardedRun.constructor | src/context/pipeline.py:201-222 | A call starts with nothing emitted, no verdict, and the schema request that the provider supports. |
| GuardedAnswer.GuardedRun.Commit | src/context/pipeline.py:224-234 | A claim is emitted and remembered unless one with the same text and evidence set was before; the emitted texts are always the renderings of the committed claims. |
| GuardedAnswer.GuardedRun.CommitStream | src/context/pipeline.py:313-331 | Over any chunks, what is committed is what verifies among the claims that a new reader yields, each once. |
| GuardedAnswer.GuardedRun.CommittedAnswer | src/context/pipeline.py:242-283 | An early exit answers with the join of the committed claims, or with its fixed text when there are none. |
| GuardedAnswer.GuardedRun.JudgeReply | src/context/pipeline.py:342-378 | Refusal, incomplete reply, unparsable text, abstention, full and partial support each leave the state and take the way out that the transition system says. |
| GuardedAnswer.GuardedRun.AskWithoutSchema | src/context/pipeline.py:337-341 | The schema is given up once, with one more call; a second rejection, or a fallback that does not answer, escapes. |
| GuardedAnswer.GuardedRun.TryOnce | src/context/pipeline.py:298-378 | One pass of the loop is one step of the transition system, streaming or not. |
| GuardedAnswer.GuardedRun.Generate | src/context/pipeline.py:201-383 | The whole call against any provider: the answer is the join of everything shown, in order; when nothing was shown to a listener it is one of two fixed texts; and there is at most one call more than attempts. |
| GuardedAnswer.CommitKeeps | src/context/pipeline.py:224-234 | Committing claims that verify keeps the committed claims verified and their keys pairwise distinct. |
| GuardedAnswer.TryKeeps | src/context/pipeline.py:298-378 | One attempt, whatever it meets, keeps the invariant, drops no committed claim, never asks for the schema again, and answers with what was committed. |
| GuardedAnswer.RunBounds | src/context/pipeline.py:255-262 | In every run emitted claims stay verified and distinct, none is taken back, and calls stay within attempts plus one. |
| GuardedAnswer.RunShows | src/context/pipeline.py:255-262 | Every run that returns after emitting returns the join of what it emitted in emission order; with a listener, all that the last accepted draft supports was emitted, and an answer that was not emitted is one of two fixed texts. |
| GuardedAnswer.CommitIsDeduplication | src/context/pipeline.py:224-234 | Committing a list leaves its first occurrences by text and evidence set, and loses no key. |
| GuardedRuns.SameClaimIff | src/context/pipeline.py:227 | Two claims are one if and only if they have the same text and cite the same evidence, in any order. |
| GuardedAnswer.StreamableWhen | src/context/pipeline.py:313-331 | Every accepted draft in schema order, and every one in which no object repeats a key, is one of which the reader shows only what the draft says. |
| GuardedAnswer.StreamingIsJudging | src/context/pipeline.py:298-378 | An attempt that streams such a draft ends in the state, and takes the way out, of an attempt that gets it as a whole reply; in every state and for every cutting. |
| GuardedAnswer.RunAlike | src/context/pipeline.py:298-383 | For a listener, a run over such drafts ends in the same state with the same answer whether or not the provider streams. |
| GuardedAnswer.StreamedIsDeduplicated | src/context/pipeline.py:298-378 | For such a draft, if it does not abstain and its claims all verify, the streamed answer under any cutting is the answer without a listener, with repeated claims left out. |
| GuardedRuns.AttemptsAllowed | src/context/pipeline.py:201-202 | A call may make one attempt and the wanted retries, no fewer than none and no more than the cap. |
| GuardedRuns.StreamsIff | src/context/pipeline.py:222 | An attempt depends on the chunks alone when there is a listener and the provider can stream, and on the whole reply alone otherwise. |
| GuardedRuns.RetriesGoOn | src/context/pipeline.py:342-380 | Attempts that bring an incomplete reply, no draft, or a draft with an unsupported claim do not end the run: each costs one call, or two when the schema is rejected, and commits what it showed. |
| GuardedRuns.RunsOut | src/context/pipeline.py:298-383 | When every attempt is such, the answer is the join of all that was shown, without repetitions; if that is nothing, what the last draft supports, or the abstention without any draft. |
| GuardedRuns.RunEndsAt | src/context/pipeline.py:298-383 | The first attempt that is not such ends the run, whatever would follow: an abstaining or fully supported draft, a refusal, a timeout and an error, each with its exact answer, committed claims and calls. |
| RepeatedKeysAnswers.HiddenClaimIsAnswered | src/context/pipeline.py:313-331 | A concrete text for any two claims that is accepted as a draft with one of them; if the other verifies, every run that streams the text first emits the other, and its answer starts with it. |
| RepeatedKeysAnswers.AbstainedClaimIsAnswered | src/context/pipeline.py:313-331 | A concrete text for every claim that is accepted as an abstaining draft; if the claim verifies, every run that streams the text first answers with the claim. |
| LoopControl.LimitGrows | src/agents/components/loop_controller.py:62-66 | The effective limit lies between the base and the larger of base and cap, and more subquestions never lower it, for budgets of any sign. |
| LoopControl.LimitExact | src/agents/components/loop_controller.py:62-66 | The limit is the configured one, or the number of turns, plus the budget of every subquestion after the first: exactly that below the cap, the cap above it, and never less than the base. |
| LoopControl.PartitionSearchRequests | src/agents/components/planner.py:63-80 | The loop over the requests builds the specified three lists from the state it is given. |
| LoopControl.PartitionSplits | src/agents/components/planner.py:63-80 | Every request goes to exactly one list, counted with multiplicity: repeated if and only if its normal form was searched, otherwise overflow at the limit and allowed below it. |
| LoopControl.AgentState.RecordSearchRound | src/agents/core/state.py:134-139 | Each new query is remembered once in order, the documents are appended, one round is counted, and the score stays. |
| LoopControl.WithQueriesHolds | src/agents/core/state.py:135-137 | After a round exactly the old and the new queries are remembered. |
| LoopControl.WithQueriesReads | src/agents/core/state.py:135-137 | The queries are remembered in the order in which they are first searched. |
| LoopControl.AgentState.SetEvidence | src/agents/core/state.py:144-145 | The score is clamped to the unit interval. |
| EvidenceRules.QueryIff | src/agents/components/result_evaluation.py:107-149 | A query is sufficient if and only if it found enough passages, none too short, a score if one is required, and, if there are positive scores, a good one and a good average of those. |
| EvidenceRules.RoundIff | src/agents/components/result_evaluation.py:86-105 | A round is sufficient if and only if it asked something, found enough passages in all, and enough for each query. |
| EvidenceRules.ScoreIs | src/agents/components/evidence_judge.py:87-101 | The score is half the share of queries that found enough, and half the mean of the best scores, each squashed, of the queries that have any. |
| Evidence.BlendIsScore | src/agents/components/evidence_judge.py:87-101 | Both halves of the blend are shares, so it lies in the unit interval by itself, and the clamp never changes it. |
| Evidence.RaisingHelps | src/agents/components/result_evaluation.py:86-149 | Raising scores that are positive, pointwise, never makes a sufficient round insufficient and never lowers the evidence score. |
| Evidence.RaisingZeroHurts | src/agents/components/result_evaluation.py:117-137 | A concrete query that stops being sufficient under a minimum average when a score of zero is raised. |
| EvidenceMonotonicity.SufficiencyIff | src/agents/components/result_evaluation.py:86-149 | Raising scores of any sign pointwise never makes a sufficient query insufficient, nor a sufficient round, if and only if there is no positive minimum average and a positive minimum top score comes with required scores. |
| EvidenceMonotonicity.ScoreIff | src/agents/components/evidence_judge.py:87-101 | Raising scores of any sign pointwise, without giving a query its first positive score, never lowers the evidence score if and only if there is no positive minimum average. |
| EvidenceMonotonicity.FirstScoreLowers | src/agents/components/evidence_judge.py:87-101 | For every configuration, a round of which one zero is raised to a positive score and whose evidence score falls. |
| EvidenceMonotonicity.DefaultsCanFall | src/agents/components/result_evaluation.py:14-21 | The concrete numbers under the default thresholds: the score falls from 0.75 to 0.675. |
| Citations.LabelRoundTrip | src/context/search.py:9-26 | A printed label is read back as itself wherever it stands. |
| Citations.KeyIsInjective | src/context/search.py:17-19 | Two labels have one key only if they are one label. |
| Citations.LabelIff | src/context/search.py:22-26 | A label is read at a place if and only if its three numbers stand there in digits, with any leading zeros, between their letters and the brackets. |
| Citations.CitationSays | src/agents/components/answer_generator.py:41-47 | A citation has the label, the label in brackets, and the contents of the passage at its place. |
| Citations.PositionsDiffer | src/agents/components/answer_generator.py:40 | Two different labels are never found at the same place of an answer. |
| Citations.AgentContext.AddRound | src/context/search.py:156-178 | A round is appended, and no earlier one changes. |
| Citations.LabelsAreStable | src/context/search.py:156-178 | When rounds are added, every label in range still names its passage. |
| Citations.Collect | src/agents/components/answer_generator.py:27-36 | The nested loops collect exactly the labels that are in range and read from the answer, each once. |
| Citations.Sorted | src/agents/components/answer_generator.py:40 | The sort keeps the candidates with multiplicity and orders them by where their markers are found. |
| Citations.Generate | src/agents/components/answer_generator.py:26-47 | Every citation is that of a label in range read from the answer; they come in order of first appearance, no two with the same contents; and every such label has a citation with its contents that stands no later. With labels written without leading zeros, the places are those where the labels are first read, and ascend strictly. |
| Citations.FirstReadingIff | src/agents/components/answer_generator.py:40 | A label is sorted by the place where it is first read if and only if it is written there without leading zeros; otherwise by a later place, or by none. |
| Citations.PaddedLabel | src/context/search.py:22-26 | A concrete label with a leading zero that is read but has no place. |
| SearchInvariants.StageHistory | src/agents/search/search.py:1017-1019 | A search stage on allowed requests repeats no normal form of an earlier round. |
| SearchInvariants.StageResolves | src/agents/search/search.py:1538-1631 | After a search stage every label shown before still names its passage, and so do the new ones. |
| SearchInvariants.GateKeeps | src/agents/search/search.py:1250-1354 | The answer gate keeps the invariant; it ends the run only with sufficient evidence, with the gate off, on a direct answer, or with rejections at their maximum. |
| SearchTurns.GateIff | src/agents/components/loop_controller.py:103-109 | The gate ends the run if and only if the answer is direct, the evidence is sufficient, sufficiency is not required, or the rejections are used up; it then keeps the answer, and otherwise drops it and counts a rejection. |
| SearchTurns.BarredIff | src/agents/components/planner.py:63-80 | No request of a turn may be searched if and only if the limit, for the subquestions known after the turn, is reached, or each request repeats a searched query. |
| SearchTurns.AnswerTurn | src/agents/search/search.py:1851-1876 | A turn with only an answer ends the run with that answer exactly when the evidence of the run is sufficient and covers what the turn declares and names, or one of the three other conditions holds. |
| SearchTurns.PassingAnswerEnds | src/agents/search/search.py:1851-1876 | In any run the first such turn whose answer passes is the last turn, and its answer is the answer, whatever would follow. |
| SearchTurns.RejectedThenTaken | src/agents/search/search.py:1250-1354 | With insufficient evidence, any row of plain answers is rejected as often as is allowed, and the next answer ends the run. |
| SearchTurns.PartitionIsNovel | src/agents/components/planner.py:63-80 | Below the limit the requests that repeat no searched query are searched, in order; at the limit they are refused. |
| SearchTurns.RoundSearches | src/agents/search/search.py:950-1110 | A round keeps each request with its subquestion and its rows, reranked exactly when asked for, possible and useful; its evaluation, score and the verdict on each of its subquestions are those of its rows; a round that finds nothing keeps none. |
| SearchTurns.CoveredIff | src/agents/search/search.py:888-906 | A searched subquestion is covered if and only if each of its queries found enough and together they found as much as one query must. |
| SearchTurns.SearchTurn | src/agents/search/search.py:1910-1932 | A turn with something new below the limit searches all of that in one round, with every counter, the history, the remembered queries and the shown labels determined; an answer in the same turn is kept and does not end the run. |
| SearchTurns.FinalRoundIsShown | src/agents/components/loop_controller.py:68-81 | Every result of the last round that the limit allows is shown, even if the round raised the score by too little. |
| SearchTurns.IdleTurn | src/agents/search/search.py:1878-1908 | A turn with nothing to search and no answer to judge leaves the evidence alone; refused new requests count as one hit of the limit, and repeated ones one by one. |
| SearchTurns.QuestionTurn | src/agents/search/search.py:1453-1537 | A turn without actions, in a run that has not searched and would end, is taken as one that searches the user's question. |
| SearchTurns.SilentTurn | src/agents/search/search.py:1356-1451 | Any other turn without actions ends the run at the limit of format errors, or when an answer could not be rejected; otherwise it counts as a rejected answer. At the end an existing answer stays, and a missing one is forced once if configured and there is evidence. |
| SearchInvariants.TurnKeeps | src/agents/search/search.py:1738-1976 | Any turn keeps the invariant, with one more generation counted. |
| SearchInvariants.EveryReachableState | src/agents/search/search.py:1689-1976 | After any number of turns of any run: rounds within the budget, no normal form searched in two rounds, rejections and format errors within their limits, an answered exit justified, counters conserved, evidence gain between the score and the rounds, shown labels still resolving. |
| SearchInvariants.FinishedRun | src/agents/search/search.py:1141-1179 | The same after the forced answer, with at most one generation more than turns, and a quality score in the unit interval. |
| SearchInvariants.LimitNeverShrinks | src/agents/search/search.py:1811-1826 | No turn forgets a subquestion, so the effective limit never falls during a run. |
| SearchInvariants.LimitNeverFalls | src/agents/search/search.py:1738-1976 | No state of a run has a lower effective limit than an earlier state of the same run. |
| SearchInvariants.BudgetIff | src/agents/components/planner.py:70 | Every run stays within its limit if and only if the base is positive or there are no turns. |
| SearchRecords.RecordsAreExact | src/agents/search/search.py:1051-1101 | At the end of any run the score, the total gain, the quality, the sufficient rounds, the query count and the remembered queries are the stated functions of the rounds and batches of the run. |
| SearchRecords.GainIsScoreIff | src/agents/search/search.py:1066-1075 | The total gain equals the final score if and only if no round ever lowered the score. |
| SearchRecords.EvidenceIsAnswered | src/agents/search/search.py:1960-1976 | A run that may force an answer, and whose forced generations give one, ends with an answer unless it found nothing; forcing happens only without an answer, with evidence, and not twice. |
| SearchLoop.SearchAgentLoop.constructor | src/agents/search/search.py:1698-1735 | A run starts in the start state of the machine, with a new state and context. |
| SearchLoop.SearchAgentLoop.Retrieve | src/agents/search/search.py:977-1050 | Retrieval, optional rerank, memory and counters of one round, as specified. |
| SearchLoop.SearchAgentLoop.Judge | src/agents/search/search.py:1051-1101 | The context, score, verdicts and counters after a round that found something, as specified. |
| SearchLoop.SearchAgentLoop.ExecuteSearchRound | src/agents/search/search.py:950-1110 | One round over the real objects is one round of the machine, whether or not anything was found. |
| SearchLoop.SearchAgentLoop.RunSearchStage | src/agents/search/search.py:1538-1631 | The stage resets rejections, and after a plateau keeps the round but does not show it. |
| SearchLoop.SearchAgentLoop.ForceFinalAnswer | src/agents/search/search.py:824-867 | Nothing is forced without evidence; otherwise one generation is counted and its answer taken. |
| SearchLoop.SearchAgentLoop.HandleNoAction | src/agents/search/search.py:1356-1451 | Format-error limit, rejection and no-action exit, each as the machine says. |
| SearchLoop.SearchAgentLoop.ApplyAnswerGate | src/agents/search/search.py:1250-1354 | Direct answer, accept, force and reject, each as the machine says. |
| SearchLoop.SearchAgentLoop.Register | src/agents/search/search.py:1798-1813 | Decisions and declared subquestions of a turn, declared ones starting uncovered. |
| SearchLoop.SearchAgentLoop.RegisterImplicitTasks | src/agents/search/search.py:869-886 | Subquestions that only a request names are registered uncovered, and known ones keep their status. |
| SearchLoop.SearchAgentLoop.ActOn | src/agents/search/search.py:1796-1950 | A turn with actions over the real objects is that of the machine, in every branch. |
| SearchLoop.SearchAgentLoop.TakeTurn | src/agents/search/search.py:1738-1950 | One pass of the loop body is one turn of the machine, including the search that the loop issues at a dead end. |
| SearchLoop.SearchAgentLoop.RunTurns | src/agents/search/search.py:1738-1976 | The whole loop and the forced answer after it end in the state of the machine's run, after at most one generation more than the configured turns. |
| AgenticRag.DedupeNovel | src/agents/search/agentic_rag.py:87-99 | The novel queries are the specified ones, and the seen set grows by exactly their normal forms. |
| AgenticRag.NovelHolds | src/agents/search/agentic_rag.py:87-99 | Novel queries come from the list, none blank, none seen, no two alike; and every query of the list is then covered. |
| AgenticRag.NovelReads | src/agents/search/agentic_rag.py:87-99 | Read from the front, a query is kept exactly when it is not blank and its normal form is not seen yet, and is then seen. |
| AgenticRag.Accumulate | src/agents/search/agentic_rag.py:303-315 | The loops over one round's results append the new documents in order and skip failed queries. |
| AgenticRag.WithFoundHolds | src/agents/search/agentic_rag.py:303-315 | Accumulating keeps the old documents in front, keeps keys distinct, and represents every fetched document. |
| AgenticRag.DocsRead | src/agents/search/agentic_rag.py:311-315 | Read from the front, a document comes in exactly when its key is new; nothing else comes in. |
| AgenticRag.FoundReads | src/agents/search/agentic_rag.py:308-322 | The results of the queries come in one query after the other, and a failed query brings nothing. |
| AgenticRag.BatchIsNew | src/agents/search/agentic_rag.py:276-286 | The queries of a round repeat no normal form, among themselves or from any earlier round. |
| AgenticRag.Run | src/agents/search/agentic_rag.py:263-376 | The rounds as a whole: each batch and each document list is the specified one, no normal form is retrieved twice, rounds are counted and bounded, no round but the last was sufficient, and the number of rounds is the least at which the limit is reached, the evidence is sufficient, or there is nothing new to ask. |
| AgenticRag.FollowUpsFirst | src/agents/search/agentic_rag.py:366-376 | In any run the queries of a later round are the first novel proposals of the round before, as many as allowed or there are. |
| AgenticRag.NumbersAreStable | src/agents/search/agentic_rag.py:318-330 | A later document list starts with every earlier one, so numbers never change; keys are distinct; every fetched document is represented from its round on. |
| AgenticRag.CutOffStaysEligible | src/agents/search/agentic_rag.py:366-376 | In any run, a novel follow-up that a cut left out, and that no later round retrieved in any form, is the first query of a round when it is the first follow-up proposed for it. |
| ResultDedup.BestByKey | src/agents/search/search.py:683-696 | Within a row, each fingerprint in order of first appearance with the first of its highest-scored copies; every other result is counted as removed. |
| ResultDedup.KeepFresh | src/agents/search/search.py:698-704 | Across rows, only fingerprints not seen before are kept, in order; the others are counted. |
| ResultDedup.Deduplicate | src/agents/search/search.py:667-706 | Results in equals results out plus removed, and each output row holds exactly the first-seen fingerprints of its row, each with the first of its highest-scored copies. |
| ResultDedup.EachPrintOnce | src/agents/search/search.py:670-678 | Every fingerprint of the input stands exactly once in the output, in the first row that had it. |
| ResultDedup.RowInOrder | src/agents/search/search.py:683-704 | An output row stands in the order in which its row first has the fingerprints. |
| SearchCache.KeysNeverMix | src/agents/search/search.py:632-634 | A cache key determines its retriever and its query. |
| SearchCache.UncachedJoins | src/agents/search/search.py:641-648 | What is asked is filtered query by query, in order and with repetitions. |
| SearchCache.Cache.Retrieve | src/agents/search/search.py:641-654 | Over any sequence of rounds the answers are those of uncached retrieval, only uncached queries are asked, in order, and no query that an earlier round asked is asked again. |
| SearchCache.Cache.StoreAll | src/agents/search/search.py:651-653 | The update stores each row under its own key and touches no other entry. |
| PromptBudget.Crop | src/agents/core/base.py:30-53 | The crop has the length of the budget, or of the text when that fits; a cropped text is the system tokens followed by the newest tokens, or the end of the system tokens when they alone fill the budget. |
| PromptBudget.AgentLoop.ChooseKeep | src/agents/core/base.py:331-340 | The backward walk keeps the specified number of messages. |
| PromptBudget.AgentLoop.FitMessages | src/agents/core/base.py:302-350 | The kept messages and their render are the specified ones, and the dropped count grows by exactly the difference. |
| PromptBudget.AgentLoop.BuildPromptIds | src/agents/core/base.py:352-375 | A built prompt never exceeds a positive budget; it is sliced, and flagged, exactly when the kept messages do not fit, and then holds the tokens of the system message and the newest tokens of the render, or the end of the system message alone. |
| PromptBudget.KeptIsNewest | src/agents/core/base.py:302-350 | What is kept is the system message and exactly the last messages of the conversation, unbroken; it fits, or only the last message is left; and no longer part that the estimates allow would fit. |
| PromptBudget.KeepIsGreedy | src/agents/core/base.py:331-340 | The walk stays within the budget by the estimates, and one message more would not. |
| PromptBudget.ChoiceIsGreedy | src/agents/core/base.py:327-340 | The chosen messages, with the system message, fit the budget by the estimates unless only the last is left, and one message more would not. |
| PromptBudget.EstimatesDecide | src/agents/core/base.py:331-347 | If the summed estimates bound the render of what the walk chose, the correction loop drops nothing and the choice is kept. |
| PromptBudget.EstimatesBound | src/agents/core/base.py:276-300 | Under a template that wraps each message and ends with a cue, the estimate of one message is its exact render, and summed estimates bound every render. |
| PromptBudget.WrappingDecides | src/agents/core/base.py:331-347 | Under such a template the choice by estimates is always what is kept. |
| Mmr.MmrRerank | src/context/utils.py:84-130 | For every lambda the loop returns the specified picks: greedy ones below one, the plain slice from one on. |
| Mmr.RerankConserves | src/context/utils.py:84-130 | For every lambda the result is a sub-multiset of the input, as many as asked for and available; from one on it is a prefix, cut as a Python slice. |
| Mmr.SameSourceIff | src/context/utils.py:78-82 | Documents are of one source by the host of their URL, or the start of the URL without a host, or the title without a URL, or the start of the content without either. |
| Mmr.RerankIsGreedy | src/context/utils.py:105-128 | Each pick is worth no less than every later pick and every leftover, by lambda times the score relative to the largest, less one minus lambda for a source that was picked; the first pick has the best score, or the worst when all are negative. |
| Mmr.FirstPicksDiffer | src/context/utils.py:108-128 | With scores that are not negative and any lambda below one half, the first picks have pairwise different sources until every source was picked. |
| Mmr.FirstHostsDiffer | src/context/utils.py:78-82 | Among documents with hosts the first picks are from different hosts, as many as there are hosts. |
| Mmr.DiversityIff | src/context/utils.py:98-99 | The result is diverse in that sense for all inputs if and only if lambda is below one half, over every lambda. |
| Mmr.SourceOrder | src/context/utils.py:105-128 | With lambda strictly between zero and one the picks of each source are its best, best first, when some score is not negative; when all are negative, its worst, worst first. |
| Mmr.NegativeScoresReverse | src/context/utils.py:105-106 | The concrete case: of two negative scores of one source the lower is picked. |
| OverflowWriter.Writer.constructor | cli/overflow/writer.go:19-29 | A new writer has printed and buffered nothing. |
| OverflowWriter.Writer.Write | cli/overflow/writer.go:46-97 | Each write changes output, counters, buffer, file and limit as specified, for every disk behaviour. |
| OverflowWriter.Writer.Finish | cli/overflow/writer.go:100-123 | The end prints the buffer, a newline or the notice, and removes the file unless output was cut. |
| OverflowWriter.TruncationIsExact | cli/overflow/writer.go:46-97 | With a positive limit and no failure, however the bytes are cut into writes: the first `limit` bytes are printed, the file holds all, and truncation is flagged exactly when there are more. |
| OverflowWriter.CuttingIsInvisible | cli/overflow/writer.go:46-123 | Two ways of cutting the same bytes end in the same state after the end of output. |
| OverflowWriter.NothingIsCut | cli/overflow/writer.go:56-59 | Without a limit everything is printed as it comes. |
| OverflowWriter.QuietPrintsOnce | cli/overflow/writer.go:50-53 | A quiet writer prints nothing before the end, for any limit and disk, and then everything with a newline. |
| OverflowWriter.FinishedWithLimit | cli/overflow/writer.go:100-123 | Output within the limit ends with a newline and leaves no file; of longer output the first `limit` bytes and the notice of its exact size are printed, and the file holds it all. |
| OverflowWriter.FinishedWithout | cli/overflow/writer.go:56-59 | Without a limit the output is all bytes and a newline, and there is no file. |
| OverflowWriter.AfterFailure | cli/overflow/writer.go:62-84 | From the first failing write on everything is printed in full, after the first `limit` bytes of what came before. |
| OverflowWriter.NothingLostIff | cli/overflow/writer.go:62-84 | After a failure the output is all that was written if and only if no byte had been cut before it. |
| OverflowWriter.FinishedAfterFailure | cli/overflow/writer.go:62-84 | A run with a failure ends with a newline after the kept, the failing and the later bytes, and there is no file. |

## Left out

- Model calls, HTTP, sessions, tracing, metrics export, prompts and feedback texts: their outcomes are inputs.
- Timings, confidence, verification status and the other flags of a generated answer: not tied to the emitted claims.
- `json.loads` limits: the recursion limit and the limit on integer digits; numbers are recognised but keep no value.
- The same limit on integer digits in citation labels: `int` raises on a longer run, where the model reads a number.
- GuardedAnswer.GuardedRun.AskWithoutSchema: results are stated for calls that return; a fallback that times out raises out of the handler, as in the source.
- Decimal digits outside ASCII, which `\d` also matches, in citation labels.
- Citations.Generate: does not say in what order labels without a place, the ones with leading zeros, come among themselves.
- `cited_result_ids` and the loop of `AnswerGenerator.generate` test the same keys; one loop models both.
- The search run takes its rows after the cache and the removal of repeated sources; `SearchCache` and `ResultDedup` model those two on their own.
- SearchCache.Cache.Retrieve: the backend answers every query with one row and always with the same; a short or changing answer is not modelled.
- Page fetching and its cache: a turn only says whether it asks for pages.
- Tag parsing of turns, and the texts of subquestions: parsed actions are inputs, subquestions are their ids, and an empty id counts as none.
- The early-stop, cache-hit, follow-up and decision-prompt counters, and the derived ratios other than the quality score.
- The exit names that only relabel a run without an answer (`max_turns`, `search_limit`).
- The reasons listed by the evaluator: a query is sufficient when there would be none.
- `PromptBudget`: a tokenizer without `encode`, a render that fails, and the cache of the message overhead.
- `OverflowWriter`: errors of the output stream itself, and of closing or removing the file.
- `RecoveryPolicy`, `merge_adjacent_documents`, `extract_citations`, filters and previews: single functions that would add only easy members.
- The interface code under `cli/`, the training and evaluation scripts, and the services around the loops.
